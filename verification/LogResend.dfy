/** Exactly when a re-sent batch is filed exactly once, and what happens otherwise. */
module LogResend {
  import opened Rings
  import opened LogShipping
  import opened LogExactlyOnce

  // ---------- One core ----------

  /** What one delivery files is a stretch of the core's own lines. */
  lemma ProcessedFiled(w: World) returns (lo: nat, hi: nat)
    requires OneCore(w) && w.flight.Sent?
    ensures hi == w.flight.marks[0] && lo == hi - |w.flight.batch| + Carried(High(w), w.cores[0].cursor)
    ensures Carried(High(w), w.cores[0].cursor) <= |w.flight.batch| <= hi && High(w) <= lo <= hi <= |w.cores[0].lines|
    ensures Step(w, Process).hub.filed == w.hub.filed + w.cores[0].lines[lo..hi]
    ensures forall i :: 0 <= i < |w.cores[0].lines| ==> w.cores[0].lines[i].epoch == w.epoch
  {
    OneCoreNews(w);
    hi := w.flight.marks[0];
    lo := hi - |w.flight.batch| + Carried(High(w), w.cores[0].cursor);
    if w.flight.batch != [] {
      ProcessedHub(w);
    } else {
      ProcessedEmptyHub(w);
    }
    hide Fresh, Counting, Filing, High, Step;
  }

  lemma OneCoreFiledAfter(w: World)
    requires OneCore(w) && w.flight.Sent?
    ensures var n, k, gone := w.flight.marks[0], |w.flight.batch|, Carried(High(w), w.cores[0].cursor);
      && gone <= k <= n && High(w) <= n - k + gone <= n <= |w.cores[0].lines|
      && OfEpoch(Step(w, Process).hub.filed, w.epoch)
         == OfEpoch(w.hub.filed, w.epoch) + w.cores[0].lines[n - k + gone..n]
  {
    var lo, hi := ProcessedFiled(w);
    hide *;
    FiledSlice(w.hub.filed, w.cores[0].lines, w.epoch, lo, hi);
  }

  lemma FiledSlice(filed: seq<Line>, lines: seq<Line>, epoch: string, lo: nat, hi: nat)
    requires lo <= hi <= |lines| && forall i :: 0 <= i < |lines| ==> lines[i].epoch == epoch
    ensures OfEpoch(filed + lines[lo..hi], epoch) == OfEpoch(filed, epoch) + lines[lo..hi]
  {
    hide OfEpoch;
    FileMore(filed, lines[lo..hi], epoch, epoch);
  }

  /** One core, one delivery: given that nothing was lost before it, nothing is lost by
      it if and only if what is unacknowledged fits a batch or nothing is new. */
  lemma OneCoreCompleteIff(w: World)
    requires OneCore(w) && w.flight.Sent?
    requires w.cores[0].cursor <= High(w)
    requires OfEpoch(w.hub.filed, w.epoch) == w.cores[0].lines[..High(w)]
    ensures OfEpoch(Step(w, Process).hub.filed, w.epoch) == w.cores[0].lines[..w.flight.marks[0]]
      <==> w.flight.marks[0] - w.cores[0].cursor <= BATCH || w.flight.marks[0] == High(w)
  {
    OneCoreFiledAfter(w);
    PrefixThenSlice(w.cores[0].lines, High(w),
      w.flight.marks[0] - |w.flight.batch| + Carried(High(w), w.cores[0].cursor), w.flight.marks[0]);
  }

  lemma PrefixThenSlice(s: seq<Line>, a: nat, b: nat, c: nat)
    requires a <= b <= c <= |s|
    ensures s[..a] + s[b..c] == s[..c] <==> a == b || b == c == a
  {
    if s[..a] + s[b..c] == s[..c] {
      assert a + (c - b) == |s[..a] + s[b..c]| == c;
    }
  }

  // ---------- Any number of cores ----------

  ghost predicate AllTagged(cores: seq<Core<Line>>, epoch: string) {
    forall i :: 0 <= i < |cores| ==> Tagged(cores[i].lines, epoch, i)
  }

  /** Only the last core with lines in the previous batch, or a core after it, has
      written since.  (`LogSendRule` says it of what an agent knows.) */
  ghost predicate NewsLast(cores: seq<Core<Line>>, seen: seq<nat>, from: nat)
    requires Bounded(cores, seen)
  {
    forall i, j :: from <= i < j < |cores| && seen[i] < |cores[i].lines| ==> seen[j] == cores[j].cursor
  }

  lemma {:induction false} SpanFromCore(cores: seq<Core<Line>>, marks: seq<nat>, epoch: string, from: nat)
    requires AllTagged(cores, epoch) && Bounded(cores, marks) && from <= |cores|
    ensures forall k :: 0 <= k < |Span(cores, marks, from)| ==> Span(cores, marks, from)[k].core >= from
    decreases |cores| - from
  {
    if from < |cores| {
      SpanFromCore(cores, marks, epoch, from + 1);
    }
  }

  /** A span is empty exactly when no core contributes to it. */
  lemma {:induction false} SpanEmptyIff(cores: seq<Core<Line>>, marks: seq<nat>, from: nat)
    requires Bounded(cores, marks) && from <= |cores|
    ensures Span(cores, marks, from) == [] <==> forall j :: from <= j < |cores| ==> marks[j] == cores[j].cursor
    decreases |cores| - from
  {
    if from < |cores| {
      SpanEmptyIff(cores, marks, from + 1);
      assert Span(cores, marks, from) == [] <==>
        marks[from] == cores[from].cursor && Span(cores, marks, from + 1) == [];
    }
  }

  /** One core more: a prefix of its lines and then others is a prefix of all its lines
      and then others, when the two continuations never start alike. */
  lemma PrefixOfConcat(mine: seq<Line>, all: seq<Line>, rest: seq<Line>, restAll: seq<Line>, core: nat)
    requires mine <= all
    requires forall k :: 0 <= k < |all| ==> all[k].core == core
    requires forall k :: 0 <= k < |rest| ==> rest[k].core > core
    ensures mine + rest <= all + restAll <==> if mine == all then rest <= restAll else rest == []
  {
    if mine == all {
      assert (mine + rest)[|mine|..] == rest && (all + restAll)[|mine|..] == restAll;
    } else if rest == [] {
      assert mine + rest == mine;
    } else {
      assert (mine + rest)[|mine|] == rest[0] && (all + restAll)[|mine|] == all[|mine|];
    }
  }

  lemma SliceIsAll(s: seq<Line>, a: nat, b: nat)
    requires a <= b <= |s|
    ensures s[a..b] <= s[a..] && (s[a..b] == s[a..] <==> b == |s|)
  {
    assert |s[a..b]| == b - a;
  }

  lemma NewsLastStep(cores: seq<Core<Line>>, seen: seq<nat>, from: nat)
    requires Bounded(cores, seen) && from < |cores|
    ensures NewsLast(cores, seen, from) <==>
      && NewsLast(cores, seen, from + 1)
      && (seen[from] == |cores[from].lines| || forall j :: from + 1 <= j < |cores| ==> seen[j] == cores[j].cursor)
  {
  }

  /** The re-sent batch extends the processed one exactly when the news is last. */
  lemma {:induction false} SpanPrefixIff(cores: seq<Core<Line>>, seen: seq<nat>, epoch: string, from: nat)
    requires AllTagged(cores, epoch) && Bounded(cores, seen) && from <= |cores|
    ensures Span(cores, seen, from) <= Span(cores, Totals(cores), from) <==> NewsLast(cores, seen, from)
    decreases |cores| - from
  {
    if from < |cores| {
      hide NewsLast;
      var c := cores[from];
      SpanPrefixIff(cores, seen, epoch, from + 1);
      SpanFromCore(cores, seen, epoch, from + 1);
      SpanEmptyIff(cores, seen, from + 1);
      NewsLastStep(cores, seen, from);
      var mine, all := c.lines[c.cursor..seen[from]], c.lines[c.cursor..];
      var rest, restAll := Span(cores, seen, from + 1), Span(cores, Totals(cores), from + 1);
      assert Span(cores, seen, from) == mine + rest && Span(cores, Totals(cores), from) == all + restAll;
      hide Span;
      SliceIsAll(c.lines, c.cursor, seen[from]);
      PrefixOfConcat(mine, all, rest, restAll, from);
    }
  }

  /** A head of the new batch that starts with one core's lines: what it holds of that
      core is its beginning. */
  lemma HeadParts(h0: seq<Line>, h1: seq<Line>, core: nat)
    requires forall k :: 0 <= k < |h0| ==> h0[k].core == core
    requires forall k :: 0 <= k < |h1| ==> h1[k].core > core
    ensures OfCore(h0 + h1, core) == h0
    ensures forall i: nat :: i > core ==> OfCore(h0 + h1, i) == OfCore(h1, i)
  {
    OfCoreConcat(h0, h1, core);
    OfCoreAll(h0, core);
    OfCoreNone(h1, core);
    forall i: nat | i > core
      ensures OfCore(h0 + h1, i) == OfCore(h1, i)
    {
      OfCoreConcat(h0, h1, i);
      OfCoreNone(h0, i);
    }
  }

  ghost predicate HoldsSeen(head: seq<Line>, cores: seq<Core<Line>>, seen: seq<nat>, from: nat)
    requires Bounded(cores, seen)
  {
    forall i: nat :: from <= i < |cores| ==> OfCore(head, i) == cores[i].lines[cores[i].cursor..seen[i]]
  }

  lemma PrefixCut(head: seq<Line>, all: seq<Line>, restAll: seq<Line>)
    requires head <= all + restAll
    ensures var cut := Min(|head|, |all|);
      head == head[..cut] + head[cut..] && head[..cut] <= all && head[cut..] <= restAll
  {
    assert (all + restAll)[..|head|] == head;
  }

  lemma HoldsSeenTail(h0: seq<Line>, h1: seq<Line>, cores: seq<Core<Line>>, seen: seq<nat>, from: nat)
    requires Bounded(cores, seen) && from < |cores| && HoldsSeen(h0 + h1, cores, seen, from)
    requires forall k :: 0 <= k < |h0| ==> h0[k].core == from
    requires forall k :: 0 <= k < |h1| ==> h1[k].core > from
    ensures h0 == cores[from].lines[cores[from].cursor..seen[from]]
    ensures HoldsSeen(h1, cores, seen, from + 1)
  {
    HeadParts(h0, h1, from);
    forall i: nat | from <= i < |cores|
      ensures OfCore(h0 + h1, i) == cores[i].lines[cores[i].cursor..seen[i]]
    {
    }
  }

  /** A prefix of the new batch that holds, of each core, just what the old batch held
      is the old batch. */
  lemma {:induction false} HeadGrouped(head: seq<Line>, cores: seq<Core<Line>>, seen: seq<nat>, epoch: string, from: nat)
    requires AllTagged(cores, epoch) && Bounded(cores, seen) && from <= |cores|
    requires head <= Span(cores, Totals(cores), from) && HoldsSeen(head, cores, seen, from)
    ensures head == Span(cores, seen, from)
    decreases |cores| - from
  {
    if from < |cores| {
      hide OfCore, HoldsSeen, AllTagged;
      var h0, h1 := HeadCut(head, cores, seen, epoch, from);
      HeadGrouped(h1, cores, seen, epoch, from + 1);
    }
  }

  lemma OwnLines(cores: seq<Core<Line>>, epoch: string, i: nat, h: seq<Line>)
    requires AllTagged(cores, epoch) && i < |cores| && 0 <= cores[i].cursor <= |cores[i].lines|
    requires h <= cores[i].lines[cores[i].cursor..]
    ensures forall k :: 0 <= k < |h| ==> h[k].core == i
  {
    assert forall k :: 0 <= k < |h| ==> h[k] == cores[i].lines[cores[i].cursor + k];
  }

  /** The first core's share of such a prefix, and the rest. */
  lemma HeadCut(head: seq<Line>, cores: seq<Core<Line>>, seen: seq<nat>, epoch: string, from: nat)
      returns (h0: seq<Line>, h1: seq<Line>)
    requires AllTagged(cores, epoch) && Bounded(cores, seen) && from < |cores|
    requires head <= Span(cores, Totals(cores), from) && HoldsSeen(head, cores, seen, from)
    ensures head == h0 + h1 && h0 == cores[from].lines[cores[from].cursor..seen[from]]
    ensures h1 <= Span(cores, Totals(cores), from + 1) && HoldsSeen(h1, cores, seen, from + 1)
  {
    hide Span, OfCore, HoldsSeen, AllTagged;
    var all, restAll := cores[from].lines[cores[from].cursor..], Span(cores, Totals(cores), from + 1);
    var cut := Min(|head|, |all|);
    SpanFrom(cores, Totals(cores), from);
    assert cores[from].lines[cores[from].cursor..Totals(cores)[from]] == all;
    PrefixCut(head, all, restAll);
    SpanFromCore(cores, Totals(cores), epoch, from + 1);
    h0, h1 := head[..cut], head[cut..];
    OwnLines(cores, epoch, from, h0);
    assert forall k :: 0 <= k < |h1| ==> h1[k] == restAll[k];
    HoldsSeenTail(h0, h1, cores, seen, from);
  }

  lemma {:induction false} SpanShorter(cores: seq<Core<Line>>, seen: seq<nat>, from: nat)
    requires Bounded(cores, seen) && from <= |cores|
    ensures |Span(cores, seen, from)| <= |Span(cores, Totals(cores), from)|
    decreases |cores| - from
  {
    if from < |cores| {
      SpanShorter(cores, seen, from + 1);
    }
  }

  /** Whatever a longer batch holds, the panel files what lies past its count. */
  lemma PublishAny(h: HubNode<Line>, epoch: string, acked: seq<Line>, since: seq<Line>, batch: seq<Line>)
    requires HubExact(h, epoch, acked, since) && |since| <= |batch| <= BATCH
    requires forall k :: 0 <= k < |batch| ==> batch[k].epoch == epoch
    ensures OfEpoch(Publish(h, epoch, |acked|, batch).filed, epoch) == acked + since + batch[|since|..]
  {
    assert LastN(batch, BATCH) == batch;
    assert Publish(h, epoch, |acked|, batch).filed == h.filed + batch[|since|..];
    FileMore(h.filed, batch[|since|..], epoch, epoch);
  }

  /** Of one core: what lies before the panel's count, when what lies past it completes
      the core. */
  lemma HeadOfCore(done: seq<Line>, head: seq<Line>, rest: seq<Line>, cores: seq<Core<Line>>, seen: seq<nat>, epoch: string, i: nat)
    requires AllTagged(cores, epoch) && Bounded(cores, seen) && i < |cores|
    requires head + rest == Span(cores, Totals(cores), 0)
    requires OfCore(done, i) == cores[i].lines[..seen[i]]
    requires OfCore(done + rest, i) == cores[i].lines
    ensures OfCore(head, i) == cores[i].lines[cores[i].cursor..seen[i]]
  {
    hide OfCore, Span, Tagged;
    OfCoreConcat(done, rest, i);
    OfCoreConcat(head, rest, i);
    SpanOfCore(cores, Totals(cores), 0, epoch, i);
    CancelTail(cores[i].lines, cores[i].cursor, seen[i], OfCore(head, i), OfCore(rest, i));
  }

  lemma CancelTail(lines: seq<Line>, cursor: nat, seen: nat, head: seq<Line>, rest: seq<Line>)
    requires cursor <= seen <= |lines|
    requires lines[..seen] + rest == lines && head + rest == lines[cursor..]
    ensures head == lines[cursor..seen]
  {
    assert rest == lines[seen..];
    assert |head| == seen - cursor;
    assert head == (head + rest)[..|head|];
  }

  /** If every core came out complete, the batch extended the last one. */
  lemma CompleteExtends(done: seq<Line>, cores: seq<Core<Line>>, seen: seq<nat>, epoch: string)
    requires AllTagged(cores, epoch) && Bounded(cores, seen)
    requires |Span(cores, seen, 0)| <= |Span(cores, Totals(cores), 0)|
    requires forall i: nat :: i < |cores| ==> OfCore(done, i) == cores[i].lines[..seen[i]]
    requires forall i: nat :: i < |cores| ==>
      OfCore(done + Span(cores, Totals(cores), 0)[|Span(cores, seen, 0)|..], i) == cores[i].lines
    ensures Span(cores, seen, 0) <= Span(cores, Totals(cores), 0)
  {
    var batch, count := Span(cores, Totals(cores), 0), |Span(cores, seen, 0)|;
    var head, rest := batch[..count], batch[count..];
    assert head + rest == batch;
    assert HoldsSeen(head, cores, seen, 0) by {
      forall i: nat | i < |cores|
        ensures OfCore(head, i) == cores[i].lines[cores[i].cursor..seen[i]]
      {
        HeadOfCore(done, head, rest, cores, seen, epoch, i);
      }
    }
    HeadGrouped(head, cores, seen, epoch, 0);
  }

  /** Every core is filed exactly up to its last line. */
  ghost predicate Complete(w: World) {
    forall i: nat :: i < |w.cores| ==> OfCore(OfEpoch(w.hub.filed, w.epoch), i) == w.cores[i].lines
  }

  lemma SendProcess(w: World)
    requires w.flight.Idle?
    ensures var w2 := Step(Step(w, Send), Process);
      && w2.hub == Publish(w.hub, w.epoch, w.logSeq, Collect(w.cores))
      && w2.epoch == w.epoch && w2.cores == w.cores && w2.seen == Totals(w.cores)
  {
  }

  lemma ExtendsCompletes(w: World)
    requires Exact(w) && w.flight.Idle? && Fits(w) && Extends(w)
    ensures Complete(Step(Step(w, Send), Process))
  {
    var w2 := Step(Step(w, Send), Process);
    SendProcess(w);
    assert Exact(w2) by {
      ExactSend(w);
      ExactProcess(Step(w, Send));
    }
    forall i: nat | i < |w2.cores|
      ensures OfCore(OfEpoch(w2.hub.filed, w2.epoch), i) == w2.cores[i].lines
    {
      ExactUpTo(w2, i);
    }
  }

  lemma CompletesExtends(w: World)
    requires Exact(w) && w.flight.Idle? && Fits(w)
    requires Complete(Step(Step(w, Send), Process))
    ensures Extends(w)
  {
    var since, batch := Span(w.cores, w.seen, 0), Span(w.cores, Totals(w.cores), 0);
    SendProcess(w);
    MergeIsSpan(w.cores, 0);
    SpanShorter(w.cores, w.seen, 0);
    SpanOfEpoch(w.cores, Totals(w.cores), 0, w.epoch);
    PublishAny(w.hub, w.epoch, w.acked, since, batch);
    forall i: nat | i < |w.cores|
      ensures OfCore(w.acked + since, i) == w.cores[i].lines[..w.seen[i]]
    {
      AckSpanAt(w.cores, w.acked, w.seen, w.epoch, i);
    }
    hide OfCore, OfEpoch, Span, Tagged, AckedExact, HubExact, PastExact, Step, Publish;
    CompleteExtends(w.acked + since, w.cores, w.seen, w.epoch);
  }

  /** Any number of cores, one re-send: from a state where nothing was lost or repeated,
      a heartbeat that fits leaves every core filed exactly up to its last line if and
      only if only the last core in the batch processed before, or one after it, has
      written since. */
  lemma ResendExactIff(w: World)
    requires Exact(w) && w.flight.Idle? && Fits(w)
    ensures Complete(Step(Step(w, Send), Process)) <==> NewsLast(w.cores, w.seen, 0)
  {
    MergeIsSpan(w.cores, 0);
    SpanPrefixIff(w.cores, w.seen, w.epoch, 0);
    if Extends(w) {
      ExtendsCompletes(w);
    } else if Complete(Step(Step(w, Send), Process)) {
      CompletesExtends(w);
    }
  }

  // ---------- The failure is real ----------

  const X := Line("p", 1, 0, "x")
  const S := Line("p", 0, 0, "s")

  /** Core 1 has said a line, the panel has filed it, and the agent does not know. */
  function AfterLostResponse(): World {
    World("p", [Core([], 0), Core([X], 0)], 0, Idle, HubNode("p", 1, [X]), [], [0, 1], map[])
  }

  lemma LostResponse()
    ensures Run(Init("p", 2), [Write(1, "x"), Send, Process, LoseResponse]) == AfterLostResponse()
  {
    var w0 := Init("p", 2);
    var w1 := Step(w0, Write(1, "x"));
    assert [] + [X] == [X];
    assert w1.cores == [Core([], 0), Core([X], 0)];
    CollectTwo([], [X]);
    assert Totals(w1.cores) == [0, 1];
    RunFour(w0, Write(1, "x"), Send, Process, LoseResponse);
  }

  /** From a fresh agent: the response to core 1's line is lost, core 0 (first by name)
      says a line, and the re-send files core 1's a second time and, once acknowledged,
      core 0's is never filed at all. */
  lemma TwoCoresRepeatAndLose()
    ensures var w := Run(Run(Init("p", 2), [Write(1, "x"), Send, Process, LoseResponse]), [Write(0, "s"), Send, Process, Ack]);
      && w.hub.filed == [X, X]
      && w.cores == [Core([S], 1), Core([X], 1)]
  {
    LostResponse();
    hide Run;
    ResendAfterLoss();
  }

  lemma ResendAfterLoss()
    ensures var w := Run(AfterLostResponse(), [Write(0, "s"), Send, Process, Ack]);
      && w.hub.filed == [X, X]
      && w.cores == [Core([S], 1), Core([X], 1)]
  {
    var w0 := AfterLostResponse();
    var w1 := Step(w0, Write(0, "s"));
    assert [] + [S] == [S];
    assert w1.cores == [Core([S], 0), Core([X], 0)];
    CollectTwo([S], [X]);
    assert Totals(w1.cores) == [1, 1];
    SendProcess(w1);
    assert LastN([S, X], BATCH) == [S, X];
    assert [X] + [S, X][1..] == [X, X];
    RunFour(w0, Write(0, "s"), Send, Process, Ack);
  }

  lemma CollectTwo(a: seq<Line>, b: seq<Line>)
    requires |a| + |b| <= BATCH
    ensures Collect([Core(a, 0), Core(b, 0)]) == a + b
  {
    var cores := [Core(a, 0), Core(b, 0)];
    assert Merge(cores, 2) == [];
    assert Merge(cores, 1) == b;
    assert Merge(cores, 0) == a + b;
  }

  lemma RunFour(w: World, a: Event, b: Event, c: Event, d: Event)
    ensures Run(w, [a, b, c, d]) == Step(Step(Step(Step(w, a), b), c), d)
  {
    assert [a, b, c, d][1..] == [b, c, d] && [b, c, d][1..] == [c, d] && [c, d][1..] == [d] && [d][1..] == [];
    var w1 := Step(w, a);
    var w2 := Step(w1, b);
    assert Run(w2, [c, d]) == Run(Step(w2, c), [d]) == Step(Step(w2, c), d);
    assert Run(w1, [b, c, d]) == Run(w2, [c, d]);
  }
}
