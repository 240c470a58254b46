/** How much is kept, carried and shown: the limits of log shipping in numbers. */
module LogNumbers {
  import opened Rings
  import opened LogShipping
  import LogFanout
  import NodeLogHubs

  /** Where a read starts: at the cursor, or at the oldest line held when the cursor is behind
      the window or ahead of everything. */
  lemma ReadStartsAt(total: nat, size: nat, c: int)
    requires 0 < size
    ensures ReadFrom(total, size, c) ==
      if c <= total && c >= 0 && total - c <= size then c else if total <= size then 0 else total - size
  {
  }

  /** Of a core's lines a heartbeat can carry what is unsent, or the newest 400. */
  lemma UnsentIs<T>(c: Core<T>)
    requires 0 <= c.cursor <= |c.lines|
    ensures Unsent(c) == if |c.lines| - c.cursor <= 400 then c.lines[c.cursor..] else c.lines[|c.lines| - 400..]
  {
    ReadStartsAt(|c.lines|, 400, c.cursor);
  }

  /** A core's lines come after those of the cores before it. */
  lemma MergeIs<T>(cores: seq<Core<T>>, from: nat)
    requires from < |cores|
    ensures Merge(cores, |cores|) == []
    ensures Merge(cores, from) == Unsent(cores[from]) + Merge(cores, from + 1)
  {
  }

  /** And of all of them it carries the newest 200. */
  lemma CollectIs<T>(cores: seq<Core<T>>)
    ensures var all := Merge(cores, 0);
      && Collect(cores) <= all[|all| - |Collect(cores)|..]
      && |Collect(cores)| == if |all| > 200 then 200 else |all|
  {
    var all := Merge(cores, 0);
    assert |all| <= 200 ==> all[0..] == all;
  }

  /** A channel takes a line unless 256 are waiting, and then it is gone. */
  lemma OfferIs<T>(s: LogFanout.Sub<T>, line: T)
    ensures |s.queue| < 256 ==> LogFanout.Offer(s, line) == s.(queue := s.queue + [line])
    ensures |s.queue| >= 256 ==> LogFanout.Offer(s, line) == s.(dropped := s.dropped + multiset{line})
  {
  }

  /** Offered one after the other, the first of the lines wait and the others are gone. */
  lemma OfferedIs(buf: seq<string>, lines: seq<string>)
    ensures var r := NodeLogHubs.Offered(buf, lines);
      && buf <= r && |r| == (if |buf| >= 256 then |buf| else if |buf| + |lines| > 256 then 256 else |buf| + |lines|)
      && r[|buf|..] <= lines
  {
  }

  /** A subscriber is shown the newest 20 lines, or all. */
  lemma JoinShows<T>(h: LogFanout.Hub<T>)
    ensures var f := h.node.filed;
      var h' := LogFanout.Step(h, LogFanout.Join);
      && |h'.subs| == |h.subs| + 1 && h'.subs[..|h.subs|] == h.subs
      && h'.subs[|h.subs|].backlog == (if |f| <= 20 then f else f[|f| - 20..])
      && h'.subs[|h.subs|].queue == h'.subs[|h.subs|].got == []
  {
  }
}
