/** When log shipping loses nothing: exactly-once delivery over every run that meets
    the two conditions the protocol needs. */
module LogExactlyOnce {
  import opened Rings
  import opened LogShipping

  /** The lines between the cursors and `marks`, grouped by core. */
  function Span(cores: seq<Core<Line>>, marks: seq<nat>, from: nat): seq<Line>
    requires from <= |cores| == |marks|
    requires forall i :: 0 <= i < |cores| ==> 0 <= cores[i].cursor <= marks[i] <= |cores[i].lines|
    decreases |cores| - from
  {
    if from == |cores| then []
    else cores[from].lines[cores[from].cursor..marks[from]] + Span(cores, marks, from + 1)
  }

  /** Everything unacknowledged fits one heartbeat. */
  predicate Fits(w: World)
    requires WellFormed(w)
  {
    |Span(w.cores, Totals(w.cores), 0)| <= BATCH
  }

  /** Marks between the cursors and what has been written. */
  ghost predicate Bounded(cores: seq<Core<Line>>, marks: seq<nat>) {
    && |cores| == |marks|
    && forall i :: 0 <= i < |cores| ==> 0 <= cores[i].cursor <= marks[i] <= |cores[i].lines|
  }

  /** The next batch starts with everything the panel processed since the last
      acknowledgement. */
  predicate Extends(w: World)
    requires Bounded(w.cores, w.seen)
  {
    Span(w.cores, w.seen, 0) <= Collect(w.cores)
  }

  /** Every heartbeat of the run was sent with both conditions in place. */
  ghost predicate GoodRun(w: World, events: seq<Event>)
    decreases |events|
  {
    events == [] ||
    (&& (events[0].Send? && w.flight.Idle? ==>
           WellFormed(w) && Bounded(w.cores, w.seen) && Fits(w) && Extends(w))
     && GoodRun(Step(w, events[0]), events[1..]))
  }

  // ---------- Sub-sequences by epoch and core ----------

  lemma {:induction false} OfEpochConcat(a: seq<Line>, b: seq<Line>, e: string)
    ensures OfEpoch(a + b, e) == OfEpoch(a, e) + OfEpoch(b, e)
    decreases |b|
  {
    if b == [] {
      assert a + b == a;
    } else {
      assert (a + b)[..|a + b| - 1] == a + b[..|b| - 1];
      OfEpochConcat(a, b[..|b| - 1], e);
    }
  }

  lemma {:induction false} OfCoreConcat(a: seq<Line>, b: seq<Line>, i: nat)
    ensures OfCore(a + b, i) == OfCore(a, i) + OfCore(b, i)
    decreases |b|
  {
    if b == [] {
      assert a + b == a;
    } else {
      assert (a + b)[..|a + b| - 1] == a + b[..|b| - 1];
      OfCoreConcat(a, b[..|b| - 1], i);
    }
  }

  lemma {:induction false} OfEpochAll(s: seq<Line>, e: string)
    requires forall k :: 0 <= k < |s| ==> s[k].epoch == e
    ensures OfEpoch(s, e) == s
    decreases |s|
  {
    if s != [] {
      OfEpochAll(s[..|s| - 1], e);
      assert s == s[..|s| - 1] + [s[|s| - 1]];
    }
  }

  lemma {:induction false} OfEpochNone(s: seq<Line>, e: string)
    requires forall k :: 0 <= k < |s| ==> s[k].epoch != e
    ensures OfEpoch(s, e) == []
    decreases |s|
  {
    if s != [] {
      OfEpochNone(s[..|s| - 1], e);
    }
  }

  lemma {:induction false} OfCoreAll(s: seq<Line>, i: nat)
    requires forall k :: 0 <= k < |s| ==> s[k].core == i
    ensures OfCore(s, i) == s
    decreases |s|
  {
    if s != [] {
      OfCoreAll(s[..|s| - 1], i);
      assert s == s[..|s| - 1] + [s[|s| - 1]];
    }
  }

  lemma {:induction false} OfCoreNone(s: seq<Line>, i: nat)
    requires forall k :: 0 <= k < |s| ==> s[k].core != i
    ensures OfCore(s, i) == []
    decreases |s|
  {
    if s != [] {
      OfCoreNone(s[..|s| - 1], i);
    }
  }

  // ---------- Spans ----------

  lemma {:induction false} SpanOfEpoch(cores: seq<Core<Line>>, marks: seq<nat>, from: nat, e: string)
    requires from <= |cores| && Bounded(cores, marks)
    requires forall i :: 0 <= i < |cores| ==> Tagged(cores[i].lines, e, i)
    ensures forall k :: 0 <= k < |Span(cores, marks, from)| ==> Span(cores, marks, from)[k].epoch == e
    decreases |cores| - from
  {
    if from < |cores| {
      SpanOfEpoch(cores, marks, from + 1, e);
    }
  }

  lemma SliceOfCore(lines: seq<Line>, lo: nat, hi: nat, e: string, c: nat, i: nat)
    requires lo <= hi <= |lines| && Tagged(lines, e, c)
    ensures OfCore(lines[lo..hi], i) == if i == c then lines[lo..hi] else []
  {
    if i == c { OfCoreAll(lines[lo..hi], i); } else { OfCoreNone(lines[lo..hi], i); }
  }

  lemma OfCoreEmpty(i: nat)
    ensures OfCore([], i) == []
  {
  }

  lemma SpanFrom(cores: seq<Core<Line>>, marks: seq<nat>, from: nat)
    requires from < |cores| && Bounded(cores, marks)
    ensures Span(cores, marks, from) == cores[from].lines[cores[from].cursor..marks[from]] + Span(cores, marks, from + 1)
  {
  }

  /** A span holds, of each core, the lines between its cursor and its mark. */
  lemma {:induction false} SpanOfCore(cores: seq<Core<Line>>, marks: seq<nat>, from: nat, e: string, i: nat)
    requires from <= |cores| && Bounded(cores, marks)
    requires forall c :: 0 <= c < |cores| ==> Tagged(cores[c].lines, e, c)
    ensures OfCore(Span(cores, marks, from), i)
         == if from <= i < |cores| then cores[i].lines[cores[i].cursor..marks[i]] else []
    decreases |cores| - from
  {
    hide OfCore, Tagged;
    if from < |cores| {
      hide Span;
      SpanFrom(cores, marks, from);
      SpanOfCore(cores, marks, from + 1, e, i);
      SliceOfCore(cores[from].lines, cores[from].cursor, marks[from], e, from, i);
      OfCoreConcat(cores[from].lines[cores[from].cursor..marks[from]], Span(cores, marks, from + 1), i);
    } else {
      OfCoreEmpty(i);
    }
  }

  /** Filing more lines of one epoch adds them to that epoch and to no other. */
  lemma FileMore(filed: seq<Line>, news: seq<Line>, own: string, e: string)
    requires forall k :: 0 <= k < |news| ==> news[k].epoch == own
    ensures e == own ==> OfEpoch(filed + news, e) == OfEpoch(filed, e) + news
    ensures e != own ==> OfEpoch(filed + news, e) == OfEpoch(filed, e)
  {
    OfEpochConcat(filed, news, e);
    if e == own { OfEpochAll(news, e); } else { OfEpochNone(news, e); }
  }

  /** Lines written later do not change a span. */
  lemma {:induction false} SpanStable(cores: seq<Core<Line>>, later: seq<Core<Line>>, marks: seq<nat>, from: nat)
    requires from <= |cores| == |later| && Bounded(cores, marks)
    requires forall i :: 0 <= i < |cores| ==>
      cores[i].cursor == later[i].cursor && cores[i].lines <= later[i].lines
    ensures Bounded(later, marks) && Span(cores, marks, from) == Span(later, marks, from)
    decreases |cores| - from
  {
    if from < |cores| {
      SpanStable(cores, later, marks, from + 1);
    }
  }

  lemma {:induction false} SpanEmpty(cores: seq<Core<Line>>, marks: seq<nat>, from: nat)
    requires from <= |cores| && Bounded(cores, marks)
    requires forall i :: 0 <= i < |cores| ==> cores[i].cursor == marks[i]
    ensures Span(cores, marks, from) == []
    decreases |cores| - from
  {
    if from < |cores| {
      SpanEmpty(cores, marks, from + 1);
    }
  }

  lemma UnsentIsAll(c: Core<Line>)
    requires 0 <= c.cursor <= |c.lines| <= c.cursor + BATCH
    ensures Unsent(c) == c.lines[c.cursor..|c.lines|]
  {
    ReadIsUnseenOrWindow(c.lines, RING_LINES, c.cursor);
  }

  /** A merge that fits is the whole backlog: no ring has dropped any of it. */
  lemma {:induction false} MergeIsSpan(cores: seq<Core<Line>>, from: nat)
    requires from <= |cores| && Bounded(cores, Totals(cores))
    requires |Span(cores, Totals(cores), from)| <= BATCH
    ensures Merge(cores, from) == Span(cores, Totals(cores), from)
    decreases |cores| - from
  {
    hide Unsent;
    if from < |cores| {
      MergeIsSpan(cores, from + 1);
      UnsentIsAll(cores[from]);
    }
  }

  // ---------- The invariant ----------

  /** The panel's side: of the current process it filed exactly what was acknowledged
      and the batch processed since, and it expects the line after. */
  ghost predicate HubExact(h: HubNode<Line>, epoch: string, acked: seq<Line>, since: seq<Line>) {
    && OfEpoch(h.filed, epoch) == acked + since
    && Expected(h, epoch) == |acked| + |since|
    && (h.epoch != epoch ==> acked == [] && since == [])
  }

  /** What the processes of `history` wrote, by core. */
  function Past(history: map<string, seq<seq<Line>>>, e: string, i: nat): seq<Line> {
    if e in history && i < |history[e]| then history[e][i] else []
  }

  /** Every filed line belongs to a process that ran, and what is filed of an earlier
      process is, core by core, a prefix of what it wrote. */
  ghost predicate PastExact(h: HubNode<Line>, epoch: string, history: map<string, seq<seq<Line>>>) {
    && (forall k :: 0 <= k < |h.filed| ==> h.filed[k].epoch == epoch || h.filed[k].epoch in history)
    && (h.epoch != epoch && h.epoch !in history ==> h.next == 0)
    && (forall e, i: nat :: e in history ==> OfCore(OfEpoch(h.filed, e), i) <= Past(history, e, i))
  }

  /** What the cursor of a core says the panel has of it. */
  function UpTo(cores: seq<Core<Line>>, marks: seq<nat>, i: nat): seq<Line>
    requires Bounded(cores, marks)
  {
    if i < |cores| then cores[i].lines[..marks[i]] else []
  }

  /** The agent's side: the acknowledged lines are, core by core, those before the cursors. */
  ghost predicate AckedExact(cores: seq<Core<Line>>, acked: seq<Line>) {
    forall i: nat :: OfCore(acked, i) ==
      if i < |cores| && 0 <= cores[i].cursor <= |cores[i].lines| then cores[i].lines[..cores[i].cursor] else []
  }

  ghost predicate Carrying(cores: seq<Core<Line>>, seen: seq<nat>, flight: Flight)
    requires Bounded(cores, seen)
  {
    !flight.Idle? ==>
      && Bounded(cores, flight.marks)
      && flight.batch == Span(cores, flight.marks, 0)
      && |flight.batch| <= BATCH
      && Span(cores, seen, 0) <= flight.batch
      && (flight.Processed? ==> seen == flight.marks)
  }

  ghost predicate Exact(w: World) {
    && WellFormed(w) && Bounded(w.cores, w.seen)
    && |w.acked| == w.logSeq
    && HubExact(w.hub, w.epoch, w.acked, Span(w.cores, w.seen, 0))
    && PastExact(w.hub, w.epoch, w.history)
    && AckedExact(w.cores, w.acked)
    && Carrying(w.cores, w.seen, w.flight)
  }

  lemma ExactInit(epoch: string, n: nat)
    ensures Exact(Init(epoch, n))
  {
    SpanEmpty(SilentCores(n), Zeros(n), 0);
  }

  // ---------- The panel's steps ----------

  /** A batch that extends the last one files exactly its new lines. */
  lemma PublishExtension(h: HubNode<Line>, epoch: string, acked: seq<Line>, since: seq<Line>, batch: seq<Line>)
    requires HubExact(h, epoch, acked, since) && since <= batch && |batch| <= BATCH
    ensures Publish(h, epoch, |acked|, batch)
         == if batch == [] then h else HubNode(epoch, |acked| + |batch|, h.filed + batch[|since|..])
  {
    assert LastN(batch, BATCH) == batch;
  }

  lemma PublishExact(h: HubNode<Line>, epoch: string, acked: seq<Line>, since: seq<Line>, batch: seq<Line>)
    requires HubExact(h, epoch, acked, since) && since <= batch && |batch| <= BATCH
    requires forall k :: 0 <= k < |batch| ==> batch[k].epoch == epoch
    ensures HubExact(Publish(h, epoch, |acked|, batch), epoch, acked, batch)
  {
    PublishExtension(h, epoch, acked, since, batch);
    FileMore(h.filed, batch[|since|..], epoch, epoch);
    assert acked + since + batch[|since|..] == acked + batch;
  }

  lemma PublishPast(h: HubNode<Line>, epoch: string, acked: seq<Line>, since: seq<Line>, batch: seq<Line>,
                    history: map<string, seq<seq<Line>>>)
    requires HubExact(h, epoch, acked, since) && since <= batch && |batch| <= BATCH
    requires forall k :: 0 <= k < |batch| ==> batch[k].epoch == epoch
    requires PastExact(h, epoch, history) && epoch !in history
    ensures PastExact(Publish(h, epoch, |acked|, batch), epoch, history)
  {
    var h' := Publish(h, epoch, |acked|, batch);
    PublishExtension(h, epoch, acked, since, batch);
    forall e, i: nat | e in history
      ensures OfCore(OfEpoch(h'.filed, e), i) <= Past(history, e, i)
    {
      assert OfCore(OfEpoch(h.filed, e), i) <= Past(history, e, i);
      FileMore(h.filed, batch[|since|..], epoch, e);
    }
  }

  // ---------- The agent's steps ----------

  lemma WellFormedStep(w: World, e: Event)
    requires WellFormed(w)
    ensures WellFormed(Step(w, e)) && |Step(w, e).cores| == |w.cores|
  {
  }

  lemma TakeOn(s: seq<Line>, a: nat, b: nat)
    requires a <= b <= |s|
    ensures s[..a] + s[a..b] == s[..b]
  {
  }

  lemma AckSpanAt(cores: seq<Core<Line>>, acked: seq<Line>, marks: seq<nat>, e: string, i: nat)
    requires Bounded(cores, marks) && AckedExact(cores, acked)
    requires forall c :: 0 <= c < |cores| ==> Tagged(cores[c].lines, e, c)
    ensures OfCore(acked + Span(cores, marks, 0), i) == UpTo(cores, marks, i)
  {
    hide OfCore, Span, Tagged;
    OfCoreConcat(acked, Span(cores, marks, 0), i);
    SpanOfCore(cores, marks, 0, e, i);
    if i < |cores| {
      TakeOn(cores[i].lines, cores[i].cursor, marks[i]);
    }
  }

  /** An acknowledged span moves every core's accepted prefix to its mark. */
  lemma AckSpan(cores: seq<Core<Line>>, acked: seq<Line>, marks: seq<nat>, e: string)
    requires Bounded(cores, marks) && AckedExact(cores, acked)
    requires forall c :: 0 <= c < |cores| ==> Tagged(cores[c].lines, e, c)
    ensures AckedExact(Advance(cores, marks), acked + Span(cores, marks, 0))
  {
    hide OfCore, Span, Tagged;
    var after := Advance(cores, marks);
    forall i: nat
      ensures OfCore(acked + Span(cores, marks, 0), i) ==
        if i < |after| && 0 <= after[i].cursor <= |after[i].lines| then after[i].lines[..after[i].cursor] else []
    {
      AckSpanAt(cores, acked, marks, e, i);
    }
  }

  lemma GrowAcked(cores: seq<Core<Line>>, later: seq<Core<Line>>, acked: seq<Line>)
    requires |cores| == |later| && AckedExact(cores, acked)
    requires forall i :: 0 <= i < |cores| ==>
      cores[i].cursor == later[i].cursor && cores[i].lines <= later[i].lines && 0 <= cores[i].cursor <= |cores[i].lines|
    ensures AckedExact(later, acked)
  {
    forall i: nat | i < |later|
      ensures cores[i].lines[..cores[i].cursor] == later[i].lines[..later[i].cursor]
    {
    }
  }

  lemma CarryingLonger(cores: seq<Core<Line>>, later: seq<Core<Line>>, seen: seq<nat>, flight: Flight)
    requires |cores| == |later| && Bounded(cores, seen) && Carrying(cores, seen, flight)
    requires forall i :: 0 <= i < |cores| ==>
      cores[i].cursor == later[i].cursor && cores[i].lines <= later[i].lines
    ensures Bounded(later, seen) && Span(cores, seen, 0) == Span(later, seen, 0)
    ensures Carrying(later, seen, flight)
  {
    SpanStable(cores, later, seen, 0);
    if !flight.Idle? {
      SpanStable(cores, later, flight.marks, 0);
    }
  }

  lemma ExactWrite(w: World, i: nat, text: string)
    requires Exact(w) && i < |w.cores|
    ensures Exact(Step(w, Write(i, text)))
  {
    var w' := Step(w, Write(i, text));
    WellFormedStep(w, Write(i, text));
    CarryingLonger(w.cores, w'.cores, w.seen, w.flight);
    GrowAcked(w.cores, w'.cores, w.acked);
  }

  lemma ExactSend(w: World)
    requires Exact(w) && w.flight.Idle? && Fits(w) && Extends(w)
    ensures Exact(Step(w, Send))
  {
    MergeIsSpan(w.cores, 0);
  }

  lemma ExactProcess(w: World)
    requires Exact(w) && w.flight.Sent?
    ensures Exact(Step(w, Process))
  {
    var since := Span(w.cores, w.seen, 0);
    SpanOfEpoch(w.cores, w.flight.marks, 0, w.epoch);
    PublishExact(w.hub, w.epoch, w.acked, since, w.flight.batch);
    PublishPast(w.hub, w.epoch, w.acked, since, w.flight.batch, w.history);
    WellFormedStep(w, Process);
    hide OfCore, OfEpoch, Span, AckedExact, HubExact, PastExact, WellFormed, Publish;
  }

  lemma HubAcked(h: HubNode<Line>, epoch: string, acked: seq<Line>, since: seq<Line>)
    requires HubExact(h, epoch, acked, since)
    ensures HubExact(h, epoch, acked + since, []) && OfEpoch(h.filed, epoch) == acked + since
  {
    hide OfEpoch;
    assert acked + since + [] == acked + since;
  }

  lemma AdvancedBounds(cores: seq<Core<Line>>, marks: seq<nat>)
    requires Bounded(cores, marks)
    ensures Bounded(Advance(cores, marks), marks) && Span(Advance(cores, marks), marks, 0) == []
  {
    SpanEmpty(Advance(cores, marks), marks, 0);
  }

  lemma AckCores(w: World)
    requires Exact(w) && w.flight.Processed?
    ensures var cores := Advance(w.cores, w.flight.marks);
      && w.seen == w.flight.marks
      && AckedExact(cores, w.acked + w.flight.batch)
      && Bounded(cores, w.flight.marks) && Span(cores, w.flight.marks, 0) == []
  {
    hide OfCore, OfEpoch, Span, AckedExact, PastExact, HubExact, Advance;
    AckSpan(w.cores, w.acked, w.flight.marks, w.epoch);
    AdvancedBounds(w.cores, w.flight.marks);
  }

  lemma AckHub(w: World)
    requires Exact(w) && w.flight.Processed?
    ensures HubExact(w.hub, w.epoch, w.acked + w.flight.batch, [])
    ensures OfEpoch(w.hub.filed, w.epoch) == w.acked + w.flight.batch
  {
    hide OfCore, OfEpoch, Span, AckedExact, PastExact, HubExact, WellFormed, Advance;
    HubAcked(w.hub, w.epoch, w.acked, w.flight.batch);
  }

  lemma AckIs(w: World)
    requires w.flight.Processed? && |w.flight.marks| == |w.cores|
    ensures Step(w, Ack) == w.(flight := Idle, cores := Advance(w.cores, w.flight.marks),
      logSeq := w.logSeq + |w.flight.batch|, acked := w.acked + w.flight.batch)
  {
    hide Advance;
  }

  /** What the panel and earlier processes' lines are judged by, after an acknowledgement. */
  lemma ExactAfter(w: World)
    requires WellFormed(w) && w.flight.Idle? && |w.acked| == w.logSeq && Bounded(w.cores, w.seen)
    requires Span(w.cores, w.seen, 0) == [] && HubExact(w.hub, w.epoch, w.acked, [])
    requires PastExact(w.hub, w.epoch, w.history) && AckedExact(w.cores, w.acked)
    ensures Exact(w)
  {
    hide WellFormed, Bounded, Span, HubExact, PastExact, AckedExact;
  }

  lemma ExactParts(w: World)
    requires Exact(w)
    ensures WellFormed(w) && |w.acked| == w.logSeq && PastExact(w.hub, w.epoch, w.history)
    ensures w.flight.Processed? ==> |w.flight.marks| == |w.cores|
  {
    hide Span, HubExact, PastExact, AckedExact, Tagged;
  }

  lemma ExactAck(w: World)
    requires Exact(w) && w.flight.Processed?
    ensures Exact(Step(w, Ack))
    ensures OfEpoch(w.hub.filed, w.epoch) == Step(w, Ack).acked
  {
    hide *;
    ExactParts(w);
    AckIs(w);
    AckCores(w);
    AckHub(w);
    WellFormedStep(w, Ack);
    ExactAfter(Step(w, Ack));
  }

  /** Of each core, what is filed is what it wrote up to the last batch processed. */
  lemma ExactUpTo(w: World, i: nat)
    requires Exact(w)
    ensures OfCore(OfEpoch(w.hub.filed, w.epoch), i) == UpTo(w.cores, w.seen, i)
  {
    AckSpanAt(w.cores, w.acked, w.seen, w.epoch, i);
  }

  /** So while a response is on its way all is filed that its heartbeat covered. */
  lemma ExactMark(w: World, i: nat)
    requires Exact(w) && i < |w.cores|
    ensures w.flight.Processed? ==>
      && |w.flight.marks| == |w.cores| && w.flight.marks[i] <= |w.cores[i].lines|
      && OfCore(OfEpoch(w.hub.filed, w.epoch), i) == w.cores[i].lines[..w.flight.marks[i]]
  {
    ExactUpTo(w, i);
    hide OfCore, OfEpoch, Span, AckedExact, HubExact, PastExact, Tagged;
  }

  lemma ExactPrefix(w: World, e: string, i: nat)
    requires Exact(w)
    ensures OfCore(OfEpoch(w.hub.filed, e), i) <= Written(w, e, i)
  {
    hide OfCore, Span, AckedExact;
    if e == w.epoch {
      ExactUpTo(w, i);
      assert UpTo(w.cores, w.seen, i) <= Written(w, e, i);
    } else if e !in w.history {
      OfEpochNone(w.hub.filed, e);
      OfCoreEmpty(i);
    } else {
      assert Written(w, e, i) == Past(w.history, e, i);
    }
  }

  lemma WrittenIsPast(w: World, e: string, i: nat)
    requires WellFormed(w)
    ensures var history := w.history[w.epoch := Logs(w)];
      e in history ==> Past(history, e, i) == Written(w, e, i)
  {
    hide Tagged;
  }

  lemma RestartPast(w: World, id: string)
    requires Exact(w) && id != w.epoch && id !in w.history
    ensures PastExact(w.hub, id, w.history[w.epoch := Logs(w)])
  {
    hide OfCore, OfEpoch, Span, AckedExact, Carrying, Tagged, Past, Written;
    var history := w.history[w.epoch := Logs(w)];
    forall e, i: nat | e in history
      ensures OfCore(OfEpoch(w.hub.filed, e), i) <= Past(history, e, i)
    {
      ExactPrefix(w, e, i);
      WrittenIsPast(w, e, i);
    }
  }

  lemma SilentAcked(n: nat)
    ensures AckedExact(SilentCores(n), [])
  {
  }

  /** A process that has not spoken is in step with the panel. */
  lemma HubUnheard(h: HubNode<Line>, epoch: string, history: map<string, seq<seq<Line>>>, id: string)
    requires PastExact(h, epoch, history) && id != epoch && id !in history
    ensures HubExact(h, id, [], [])
  {
    OfEpochNone(h.filed, id);
    hide OfCore, OfEpoch, Past;
  }

  lemma SilentSpan(n: nat)
    ensures Bounded(SilentCores(n), Zeros(n)) && Span(SilentCores(n), Zeros(n), 0) == []
  {
    SpanEmpty(SilentCores(n), Zeros(n), 0);
  }

  lemma ExactRestart(w: World, id: string)
    requires Exact(w) && id != w.epoch && id !in w.history
    ensures Exact(Step(w, Restart(id)))
  {
    RestartPast(w, id);
    WellFormedStep(w, Restart(id));
    SilentAcked(|w.cores|);
    HubUnheard(w.hub, w.epoch, w.history, id);
    SilentSpan(|w.cores|);
    hide OfCore, OfEpoch, Span, AckedExact, HubExact, PastExact, Tagged, WellFormed, Logs, Bounded, SilentCores, Zeros;
  }

  lemma ExactLose(w: World)
    requires Exact(w)
    ensures Exact(w.(flight := Idle))
  {
    hide AckedExact, PastExact, HubExact, Bounded, Span, Tagged;
  }

  lemma ExactStep(w: World, e: Event)
    requires Exact(w)
    requires e.Send? && w.flight.Idle? ==> Fits(w) && Extends(w)
    ensures Exact(Step(w, e))
  {
    hide Exact, Fits, Extends, Publish, Collect;
    match e
    case Write(i, text) => if i < |w.cores| { ExactWrite(w, i, text); }
    case Send => if w.flight.Idle? { ExactSend(w); }
    case Process => if w.flight.Sent? { ExactProcess(w); }
    case Ack => if w.flight.Processed? { ExactAck(w); }
    case Restart(id) => if id != w.epoch && id !in w.history { ExactRestart(w, id); }
    case _ => ExactLose(w);
  }

  lemma {:induction false} ExactRun(w: World, events: seq<Event>)
    requires Exact(w) && GoodRun(w, events)
    ensures Exact(Run(w, events))
    decreases |events|
  {
    if events != [] {
      ExactStep(w, events[0]);
      ExactRun(Step(w, events[0]), events[1..]);
    }
  }

  /** Exactly once, for any number of cores: over every run whose heartbeats met the
      two conditions, what is filed of each process and core is, in order, a prefix
      of what it wrote; and while a processed heartbeat waits for its acknowledgement
      it is everything that heartbeat covered. */
  lemma ExactlyOnce(epoch: string, n: nat, events: seq<Event>, e: string, i: nat)
    requires GoodRun(Init(epoch, n), events)
    ensures var w := Run(Init(epoch, n), events);
      && OfCore(OfEpoch(w.hub.filed, e), i) <= Written(w, e, i)
      && (w.flight.Processed? && i < |w.cores| ==>
            && |w.flight.marks| == |w.cores| && w.flight.marks[i] <= |w.cores[i].lines|
            && OfCore(OfEpoch(w.hub.filed, w.epoch), i) == w.cores[i].lines[..w.flight.marks[i]])
  {
    hide Exact, Init, Run, GoodRun, OfCore, OfEpoch, Written;
    ExactInit(epoch, n);
    ExactRun(Init(epoch, n), events);
    ExactPrefix(Run(Init(epoch, n), events), e, i);
    if i < |Run(Init(epoch, n), events).cores| {
      ExactMark(Run(Init(epoch, n), events), i);
    }
  }

  // ---------- One core: the second condition is automatic ----------

  ghost predicate FittingRun(w: World, events: seq<Event>)
    decreases |events|
  {
    events == [] ||
    (&& (events[0].Send? && w.flight.Idle? ==> WellFormed(w) && Fits(w))
     && FittingRun(Step(w, events[0]), events[1..]))
  }

  lemma OneCoreExtends(w: World)
    requires Exact(w) && |w.cores| == 1 && Fits(w)
    ensures Extends(w)
  {
    MergeIsSpan(w.cores, 0);
    var c := w.cores[0];
    assert Span(w.cores, w.seen, 0) == c.lines[c.cursor..w.seen[0]];
    assert Span(w.cores, Totals(w.cores), 0) == c.lines[c.cursor..];
  }

  lemma {:induction false} FittingRunIsGood(w: World, events: seq<Event>)
    requires Exact(w) && |w.cores| == 1 && FittingRun(w, events)
    ensures GoodRun(w, events)
    decreases |events|
  {
    if events != [] {
      if events[0].Send? && w.flight.Idle? {
        OneCoreExtends(w);
      }
      ExactStep(w, events[0]);
      WellFormedStep(w, events[0]);
      FittingRunIsGood(Step(w, events[0]), events[1..]);
    }
  }

  lemma OneCorePrefix(w: World, e: string)
    requires Exact(w) && OneCore(w)
    ensures OfEpoch(w.hub.filed, e) <= Written(w, e, 0)
    ensures w.flight.Processed? ==> OfEpoch(w.hub.filed, w.epoch) == w.cores[0].lines[..w.flight.marks[0]]
  {
    ExactPrefix(w, e, 0);
    ExactUpTo(w, 0);
    OneCoreOnly(w, e);
    OneCoreOnly(w, w.epoch);
  }

  /** One core and at most BATCH unacknowledged lines per heartbeat: exactly once. */
  lemma OneCoreExactlyOnce(epoch: string, events: seq<Event>, e: string)
    requires FittingRun(Init(epoch, 1), events)
    ensures var w := Run(Init(epoch, 1), events);
      && OfEpoch(w.hub.filed, e) <= Written(w, e, 0)
      && OneCore(w)
      && (w.flight.Processed? ==> OfEpoch(w.hub.filed, w.epoch) == w.cores[0].lines[..w.flight.marks[0]])
  {
    ExactInit(epoch, 1);
    FittingRunIsGood(Init(epoch, 1), events);
    ExactRun(Init(epoch, 1), events);
    OneCoreRun(Init(epoch, 1), events);
    OneCorePrefix(Run(Init(epoch, 1), events), e);
  }

  lemma OneCoreOnly(w: World, e: string)
    requires OneCore(w)
    ensures OfCore(OfEpoch(w.hub.filed, e), 0) == OfEpoch(w.hub.filed, e)
  {
    forall k | 0 <= k < |w.hub.filed| && w.hub.filed[k].epoch == e
      ensures w.hub.filed[k].core == 0
    {
      assert WrittenAt(w, w.hub.filed[k]);
    }
    OfEpochKeepsCore(w.hub.filed, e);
    OfCoreAll(OfEpoch(w.hub.filed, e), 0);
  }

  lemma {:induction false} OfEpochKeepsCore(s: seq<Line>, e: string)
    requires forall k :: 0 <= k < |s| && s[k].epoch == e ==> s[k].core == 0
    ensures forall k :: 0 <= k < |OfEpoch(s, e)| ==> OfEpoch(s, e)[k].core == 0
    decreases |s|
  {
    if s != [] {
      OfEpochKeepsCore(s[..|s| - 1], e);
    }
  }
}
