/** Log shipping from a node agent to the panel, as a two-party protocol over a link
    that loses requests and responses.  The agent re-sends everything unacknowledged
    and moves its cursors only when a heartbeat succeeds; the panel tells a re-send
    from news by the pair (epoch, sequence).  The functions here are the algorithm;
    `NodeLogHub` and `LogAgent` are the two programs that compute them. */
module LogShipping {
  import opened Rings

  /** Lines a core keeps on the node, and a node's lines on the panel. */
  const RING_LINES := 400
  /** Lines one heartbeat carries, and lines the panel takes from one. */
  const BATCH := 200
  /** Lines a watcher may fall behind. */
  const QUEUE := 256

  // ---------- The panel's side ----------

  /** What the panel remembers of one node: the process it last heard, the position
      it expects from it, and (the ring keeps the tail of this) every line filed. */
  datatype HubNode<T> = HubNode(epoch: string, next: int, filed: seq<T>)

  /** The position expected from `epoch`: a process not heard before starts at zero. */
  function Expected<T>(h: HubNode<T>, epoch: string): int {
    if h.epoch == epoch then h.next else 0
  }

  /** The lines of a batch the panel files: the tail it keeps, less what it has. */
  function Fresh<T>(h: HubNode<T>, epoch: string, pos: int, lines: seq<T>): seq<T> {
    if lines == [] || pos < 0 then
      []
    else
      var kept := LastN(lines, BATCH);
      var start := pos + |lines| - |kept|;
      var want := Max(Expected(h, epoch), start);
      if start + |kept| <= want then [] else kept[want - start..]
  }

  /** `publish`'s locked section. */
  function Publish<T>(h: HubNode<T>, epoch: string, pos: int, lines: seq<T>): HubNode<T> {
    if lines == [] || pos < 0 then
      h
    else
      HubNode(epoch, Max(Expected(h, epoch), pos + |lines|), h.filed + Fresh(h, epoch, pos, lines))
  }

  // ---------- The agent's side ----------

  /** A line with its identity: which agent process wrote it, through which core, and
      as its how-manieth.  The algorithms carry lines without looking inside. */
  datatype Line = Line(epoch: string, core: nat, pos: nat, text: string)

  /** Everything a core has written, and the cursor: the panel has accepted all before it. */
  datatype Core<T> = Core(lines: seq<T>, cursor: int)

  /** What a core's ring still holds of what the panel has not accepted. */
  function Unsent<T>(c: Core<T>): seq<T> {
    c.lines[ReadFrom(|c.lines|, RING_LINES, c.cursor)..]
  }

  /** The cores' unaccepted lines, grouped by core in the agent's (name) order. */
  function Merge<T>(cores: seq<Core<T>>, from: nat): seq<T>
    requires from <= |cores|
    decreases |cores| - from
  {
    if from == |cores| then [] else Unsent(cores[from]) + Merge(cores, from + 1)
  }

  /** One heartbeat's batch: the tail of the merge. */
  function Collect<T>(cores: seq<Core<T>>): seq<T> {
    LastN(Merge(cores, 0), BATCH)
  }

  function Totals<T>(cores: seq<Core<T>>): (marks: seq<nat>)
    ensures |marks| == |cores|
    ensures forall i :: 0 <= i < |cores| ==> marks[i] == |cores[i].lines|
  {
    seq(|cores|, i requires 0 <= i < |cores| => |cores[i].lines|)
  }

  /** The cores with their cursors moved to `marks`. */
  function Advance<T>(cores: seq<Core<T>>, marks: seq<nat>): (r: seq<Core<T>>)
    requires |marks| == |cores|
    ensures |r| == |cores|
    ensures forall i :: 0 <= i < |cores| ==> r[i] == Core(cores[i].lines, marks[i])
  {
    seq(|cores|, i requires 0 <= i < |cores| => Core(cores[i].lines, marks[i]))
  }

  // ---------- The two together ----------

  /** The heartbeat the agent is waiting on: none, one the panel has not processed,
      or one it has processed and whose response is on the way. */
  datatype Flight =
    | Idle
    | Sent(batch: seq<Line>, marks: seq<nat>)
    | Processed(batch: seq<Line>, marks: seq<nat>)

  /** `acked`, `seen` and `history` are bookkeeping no step of the program reads:
      what the current process has had accepted, up to which position of each core
      the panel processed a batch since then, and what earlier processes wrote. */
  datatype World = World(
    epoch: string, cores: seq<Core<Line>>, logSeq: nat, flight: Flight,
    hub: HubNode<Line>,
    acked: seq<Line>, seen: seq<nat>, history: map<string, seq<seq<Line>>>)

  datatype Event =
    | Write(core: nat, text: string)
    | Send
    | LoseRequest
    | Process
    | LoseResponse
    | Ack
    | Restart(id: string)

  function SilentCores(n: nat): (cores: seq<Core<Line>>)
    ensures |cores| == n
    ensures forall i :: 0 <= i < n ==> cores[i] == Core([], 0)
  {
    seq(n, i => Core([], 0))
  }

  function Zeros(n: nat): (marks: seq<nat>)
    ensures |marks| == n
    ensures forall i :: 0 <= i < n ==> marks[i] == 0
  {
    seq(n, i => 0)
  }

  /** A panel that has just started and an agent process with `n` silent cores. */
  function Init(epoch: string, n: nat): World {
    World(epoch, SilentCores(n), 0, Idle, HubNode("", 0, []), [], Zeros(n), map[])
  }

  function Logs(w: World): seq<seq<Line>> {
    seq(|w.cores|, i requires 0 <= i < |w.cores| => w.cores[i].lines)
  }

  /** One step; an event that cannot happen in `w` leaves it unchanged. */
  function Step(w: World, e: Event): World {
    match e
    case Write(i, text) =>
      if i < |w.cores| then
        var line := Line(w.epoch, i, |w.cores[i].lines|, text);
        w.(cores := w.cores[i := w.cores[i].(lines := w.cores[i].lines + [line])])
      else w
    case Send =>
      if w.flight.Idle? then w.(flight := Sent(Collect(w.cores), Totals(w.cores))) else w
    case LoseRequest =>
      if w.flight.Sent? then w.(flight := Idle) else w
    case Process =>
      if w.flight.Sent? then
        w.(flight := Processed(w.flight.batch, w.flight.marks),
           hub := Publish(w.hub, w.epoch, w.logSeq, w.flight.batch),
           seen := w.flight.marks)
      else w
    case LoseResponse =>
      if w.flight.Processed? then w.(flight := Idle) else w
    case Ack =>
      if w.flight.Processed? && |w.flight.marks| == |w.cores| then
        w.(flight := Idle,
           cores := Advance(w.cores, w.flight.marks),
           logSeq := w.logSeq + |w.flight.batch|,
           acked := w.acked + w.flight.batch)
      else w
    case Restart(id) =>
      if id != w.epoch && id !in w.history then
        World(id, SilentCores(|w.cores|), 0, Idle, w.hub, [], Zeros(|w.cores|),
              w.history[w.epoch := Logs(w)])
      else w
  }

  function Run(w: World, events: seq<Event>): World
    decreases |events|
  {
    if events == [] then w else Run(Step(w, events[0]), events[1..])
  }

  // ---------- What a run is judged by ----------

  /** The lines of one epoch, in the order they were filed. */
  function OfEpoch(filed: seq<Line>, epoch: string): seq<Line> {
    if filed == [] then []
    else OfEpoch(filed[..|filed| - 1], epoch)
         + (if filed[|filed| - 1].epoch == epoch then [filed[|filed| - 1]] else [])
  }

  /** The lines of one core, in order. */
  function OfCore(lines: seq<Line>, core: nat): seq<Line> {
    if lines == [] then []
    else OfCore(lines[..|lines| - 1], core)
         + (if lines[|lines| - 1].core == core then [lines[|lines| - 1]] else [])
  }

  /** What the agent process `epoch` wrote through `core` so far. */
  function Written(w: World, epoch: string, core: nat): seq<Line> {
    if epoch == w.epoch && core < |w.cores| then w.cores[core].lines
    else if epoch in w.history && core < |w.history[epoch]| then w.history[epoch][core]
    else []
  }

  /** Lines of one epoch and core were filed in the order written, none twice. */
  ghost predicate Ordered(filed: seq<Line>) {
    forall i, j :: 0 <= i < j < |filed| && filed[i].epoch == filed[j].epoch && filed[i].core == filed[j].core
      ==> filed[i].pos < filed[j].pos
  }

  /** A line its process really wrote, at the position it carries. */
  predicate WrittenAt(w: World, line: Line) {
    var all := Written(w, line.epoch, line.core);
    line.pos < |all| && all[line.pos] == line
  }

  ghost predicate AllWritten(w: World) {
    forall i :: 0 <= i < |w.hub.filed| ==> WrittenAt(w, w.hub.filed[i])
  }

  /** Every line carries its own address. */
  ghost predicate Tagged(lines: seq<Line>, epoch: string, core: nat) {
    forall p :: 0 <= p < |lines| ==>
      lines[p].epoch == epoch && lines[p].core == core && lines[p].pos == p
  }

  ghost predicate WellFormed(w: World) {
    && |w.seen| == |w.cores|
    && w.epoch !in w.history
    && (forall i :: 0 <= i < |w.cores| ==>
          && Tagged(w.cores[i].lines, w.epoch, i)
          && 0 <= w.cores[i].cursor <= |w.cores[i].lines|)
    && (forall e :: e in w.history ==>
          forall i :: 0 <= i < |w.history[e]| ==> Tagged(w.history[e][i], e, i))
    && (!w.flight.Idle? ==>
          && |w.flight.marks| == |w.cores|
          && forall i :: 0 <= i < |w.cores| ==>
               w.cores[i].cursor <= w.flight.marks[i] <= |w.cores[i].lines|)
  }

  // ---------- One core, no hypothesis: at most once, in order ----------

  /** One past the position of the last line filed from the current process. */
  function High(w: World): nat {
    var f := w.hub.filed;
    if f != [] && f[|f| - 1].epoch == w.epoch then f[|f| - 1].pos + 1 else 0
  }

  /** How many of a core's first `n` lines a batch from cursor `c` carries. */
  function Carried(n: int, c: int): int {
    Max(0, Min(BATCH, n - c))
  }

  /** The panel expects exactly the acknowledged count plus what the last
      unacknowledged batch carried. */
  ghost predicate Counting(w: World)
    requires |w.cores| == 1
  {
    && Expected(w.hub, w.epoch) == w.logSeq + Carried(High(w), w.cores[0].cursor)
    && (w.hub.epoch != w.epoch ==> w.logSeq == 0 && w.cores[0].cursor == 0 && High(w) == 0)
  }

  ghost predicate Filing(w: World) {
    && Ordered(w.hub.filed)
    && AllWritten(w)
    && (High(w) == 0 ==> forall i :: 0 <= i < |w.hub.filed| ==> w.hub.filed[i].epoch != w.epoch)
    && (w.hub.epoch != w.epoch && w.hub.epoch !in w.history ==> w.hub.next == 0)
    && (forall e :: e in w.history ==> |w.history[e]| == 1)
  }

  ghost predicate Flying(w: World)
    requires WellFormed(w) && |w.cores| == 1
  {
    && High(w) <= |w.cores[0].lines|
    && (!w.flight.Idle? ==>
          var c, n := w.cores[0], w.flight.marks[0];
          && High(w) <= n
          && w.flight.batch == c.lines[n - Carried(n, c.cursor)..n]
          && (w.flight.Processed? ==>
                && Carried(High(w), c.cursor) == |w.flight.batch|
                && (w.hub.epoch == w.epoch || w.flight.batch == [])))
  }

  /** The invariant of a one-core agent and the panel. */
  ghost predicate OneCore(w: World) {
    WellFormed(w) && |w.cores| == 1 && Counting(w) && Filing(w) && Flying(w)
  }

  /** The batch of a one-core agent is the newest BATCH of what is unaccepted. */
  lemma OneCoreCollects(c: Core<Line>)
    requires 0 <= c.cursor <= |c.lines|
    ensures Collect([c]) == c.lines[|c.lines| - Carried(|c.lines|, c.cursor)..]
  {
    assert Merge([c], 1) == [];
    assert Merge([c], 0) == Unsent(c);
    ReadIsUnseenOrWindow(c.lines, RING_LINES, c.cursor);
  }

  /** More lines in the core leave what was filed where it was. */
  lemma GrownFiling(w: World, v: World)
    requires WellFormed(w) && Filing(w) && |w.cores| == |v.cores| == 1
    requires w.epoch == v.epoch && w.history == v.history && w.hub == v.hub
    requires w.cores[0].lines <= v.cores[0].lines
    ensures Filing(v)
  {
    forall k | 0 <= k < |v.hub.filed|
      ensures WrittenAt(v, v.hub.filed[k])
    {
      assert WrittenAt(w, w.hub.filed[k]);
    }
  }

  /** Writing adds a line to the core and touches nothing else. */
  lemma WriteIs(w: World, text: string)
    requires |w.cores| == 1
    ensures var c, v := w.cores[0], Step(w, Write(0, text));
      v == w.(cores := [Core(c.lines + [Line(w.epoch, 0, |c.lines|, text)], c.cursor)])
  {
  }

  lemma WriteTagged(w: World, text: string)
    requires OneCore(w)
    ensures WellFormed(Step(w, Write(0, text)))
  {
    WriteIs(w, text);
    hide Step, Counting, Flying, Filing;
  }

  lemma PrefixSlice<T>(a: seq<T>, b: seq<T>, lo: nat, hi: nat)
    requires a <= b && lo <= hi <= |a|
    ensures a[lo..hi] == b[lo..hi]
  {
    assert forall k :: 0 <= k < |a| ==> a[k] == b[k];
  }

  /** Longer lines leave a heartbeat under way, and what is counted, as they were. */
  lemma WriteFlying(w: World, v: World)
    requires OneCore(w) && WellFormed(v) && |v.cores| == 1
    requires v == w.(cores := v.cores) && v.cores[0].cursor == w.cores[0].cursor && w.cores[0].lines <= v.cores[0].lines
    ensures Counting(v) && Flying(v)
  {
    hide Filing, Tagged;
    assert High(v) == High(w);
    hide High;
    var c := w.cores[0];
    if !w.flight.Idle? {
      var n := w.flight.marks[0];
      PrefixSlice(c.lines, v.cores[0].lines, n - Carried(n, c.cursor), n);
    }
  }

  lemma OneCoreWrite(w: World, i: nat, text: string)
    requires OneCore(w) && i < |w.cores|
    ensures OneCore(Step(w, Write(i, text)))
  {
    WriteIs(w, text);
    WriteTagged(w, text);
    hide Step, WellFormed, Counting, Flying, Filing;
    WriteFlying(w, Step(w, Write(i, text)));
    GrownFiling(w, Step(w, Write(i, text)));
  }

  lemma OneCoreSend(w: World)
    requires OneCore(w)
    ensures OneCore(Step(w, Send))
  {
    if w.flight.Idle? {
      assert w.cores == [w.cores[0]];
      OneCoreCollects(w.cores[0]);
      GrownFiling(w, Step(w, Send));
    }
  }

  /** What one delivery files, position by position: everything of the batch past
      the number of lines the panel already counted. */
  lemma OneCoreNews(w: World)
    requires OneCore(w) && w.flight.Sent?
    ensures var n, k, gone := w.flight.marks[0], |w.flight.batch|, Carried(High(w), w.cores[0].cursor);
      && gone <= k == Carried(n, w.cores[0].cursor)
      && High(w) <= n - k + gone
      && Fresh(w.hub, w.epoch, w.logSeq, w.flight.batch) == w.cores[0].lines[n - k + gone..n]
  {
    var batch := w.flight.batch;
    assert LastN(batch, BATCH) == batch;
  }

  /** Appending lines of the current process that are all past the last filed keeps
      the order. */
  lemma FiledAfter(f: seq<Line>, lines: seq<Line>, epoch: string, lo: nat, hi: nat)
    requires Ordered(f) && Tagged(lines, epoch, 0) && lo <= hi <= |lines|
    requires forall i :: 0 <= i < |f| && f[i].epoch == epoch ==> f[i].pos < lo
    ensures Ordered(f + lines[lo..hi])
  {
  }

  /** No line of the current process is filed beyond the last one. */
  lemma HighIsMax(w: World)
    requires OneCore(w)
    ensures forall i :: 0 <= i < |w.hub.filed| && w.hub.filed[i].epoch == w.epoch ==> w.hub.filed[i].pos < High(w)
  {
    var f := w.hub.filed;
    forall i | 0 <= i < |f| && f[i].epoch == w.epoch
      ensures f[i].pos < High(w)
    {
      assert WrittenAt(w, f[i]) && WrittenAt(w, f[|f| - 1]);
    }
  }

  /** After a delivery the last line filed from this process is the batch's last, or
      the batch was all a re-send and nothing moved. */
  lemma ProcessedHub(w: World)
    requires OneCore(w) && w.flight.Sent? && w.flight.batch != []
    ensures var n, k, gone := w.flight.marks[0], |w.flight.batch|, Carried(High(w), w.cores[0].cursor);
      var w' := Step(w, Process);
      && w'.hub == HubNode(w.epoch, w.logSeq + k, w.hub.filed + w.cores[0].lines[n - k + gone..n])
      && High(w') == (if gone < k then n else High(w))
  {
    OneCoreNews(w);
    var f := Step(w, Process).hub.filed;
    var n, k, gone := w.flight.marks[0], |w.flight.batch|, Carried(High(w), w.cores[0].cursor);
    if gone < k {
      assert f[|f| - 1] == w.cores[0].lines[n - 1];
    } else {
      assert f == w.hub.filed;
    }
  }

  /** A heartbeat without lines moves nothing on the panel. */
  lemma ProcessedEmptyHub(w: World)
    requires w.flight.Sent? && w.flight.batch == []
    ensures Step(w, Process) == w.(flight := Processed([], w.flight.marks), seen := w.flight.marks)
  {
  }

  lemma ProcessedEmptyFlying(w: World)
    requires OneCore(w) && w.flight.Sent? && w.flight.batch == []
    ensures WellFormed(Step(w, Process)) && Flying(Step(w, Process)) && Counting(Step(w, Process))
  {
    ProcessedEmptyHub(w);
    hide Step, Filing, Publish, Tagged;
  }

  lemma ProcessedEmpty(w: World)
    requires OneCore(w) && w.flight.Sent? && w.flight.batch == []
    ensures OneCore(Step(w, Process))
  {
    ProcessedEmptyHub(w);
    ProcessedEmptyFlying(w);
    hide Step, Counting, Flying, Publish, Tagged;
    GrownFiling(w, Step(w, Process));
  }

  lemma ProcessedSameAgent(w: World)
    requires w.flight.Sent?
    ensures var v := Step(w, Process);
      && v.cores == w.cores && v.epoch == w.epoch && v.logSeq == w.logSeq && v.history == w.history
  {
    hide Publish;
  }

  /** What the panel expects keeps up with what it last filed. */
  lemma CountingMoves(w: World, v: World, n: nat, k: nat)
    requires |w.cores| == 1 && v.cores == w.cores && v.epoch == w.epoch && v.logSeq == w.logSeq
    requires var c := w.cores[0].cursor;
      && v.hub.epoch == w.epoch && v.hub.next == w.logSeq + k && Carried(High(w), c) <= k == Carried(n, c)
      && High(v) == if Carried(High(w), c) < k then n else High(w)
    ensures Counting(v)
  {
    hide High, Carried;
  }

  lemma ProcessedCounting(w: World)
    requires OneCore(w) && w.flight.Sent? && w.flight.batch != []
    ensures Counting(Step(w, Process))
  {
    ProcessedHub(w);
    OneCoreNews(w);
    ProcessedSameAgent(w);
    hide Step, Counting, Filing, Fresh, Publish, High, Carried;
    CountingMoves(w, Step(w, Process), w.flight.marks[0], |w.flight.batch|);
  }

  lemma ProcessedFlying(w: World)
    requires OneCore(w) && w.flight.Sent? && w.flight.batch != []
    ensures WellFormed(Step(w, Process)) && Flying(Step(w, Process))
  {
    ProcessedHub(w);
    OneCoreNews(w);
    hide Fresh, Publish, Ordered, AllWritten, WrittenAt, Filing, High, Tagged;
  }

  lemma OneCoreProcess(w: World)
    requires OneCore(w) && w.flight.Sent?
    ensures OneCore(Step(w, Process))
  {
    if w.flight.batch == [] {
      ProcessedEmpty(w);
    } else {
      ProcessedFiling(w);
      ProcessedCounting(w);
      ProcessedFlying(w);
      hide Counting, Filing, Flying, WellFormed, Publish;
    }
  }

  lemma SameWritten(w: World, v: World, line: Line)
    requires w.epoch == v.epoch && w.cores == v.cores && w.history == v.history
    ensures WrittenAt(w, line) <==> WrittenAt(v, line)
  {
  }

  lemma OwnWritten(w: World, j: nat)
    requires WellFormed(w) && |w.cores| == 1 && j < |w.cores[0].lines|
    ensures WrittenAt(w, w.cores[0].lines[j])
  {
  }

  /** Filing own lines files written lines. */
  lemma MoreWritten(w: World, v: World, lo: nat, n: nat)
    requires WellFormed(w) && |w.cores| == 1 && lo <= n <= |w.cores[0].lines| && AllWritten(w)
    requires w.epoch == v.epoch && w.cores == v.cores && w.history == v.history
    requires v.hub.filed == w.hub.filed + w.cores[0].lines[lo..n]
    ensures AllWritten(v)
  {
    hide WrittenAt;
    var f := w.hub.filed;
    forall i | 0 <= i < |v.hub.filed| ensures WrittenAt(v, v.hub.filed[i]) {
      if i < |f| {
        assert v.hub.filed[i] == f[i];
      } else {
        OwnWritten(w, lo + i - |f|);
        assert v.hub.filed[i] == w.cores[0].lines[lo + i - |f|];
      }
      SameWritten(w, v, v.hub.filed[i]);
    }
  }

  lemma ProcessedWritten(w: World)
    requires OneCore(w) && w.flight.Sent? && w.flight.batch != []
    ensures AllWritten(Step(w, Process))
  {
    var n, lo := w.flight.marks[0], w.flight.marks[0] - |w.flight.batch| + Carried(High(w), w.cores[0].cursor);
    OneCoreNews(w);
    ProcessedHub(w);
    hide Fresh, Publish, Ordered, High, Counting, AllWritten, Carried;
    MoreWritten(w, Step(w, Process), lo, n);
  }

  lemma ProcessedOrdered(w: World)
    requires OneCore(w) && w.flight.Sent? && w.flight.batch != []
    ensures Ordered(Step(w, Process).hub.filed)
  {
    var n, k, gone := w.flight.marks[0], |w.flight.batch|, Carried(High(w), w.cores[0].cursor);
    OneCoreNews(w);
    ProcessedHub(w);
    HighIsMax(w);
    hide Fresh, Publish, Ordered, High, Counting, Flying, AllWritten;
    FiledAfter(w.hub.filed, w.cores[0].lines, w.epoch, n - k + gone, n);
  }

  /** A delivery with lines leaves some of this process filed. */
  lemma ProcessedHigh(w: World)
    requires OneCore(w) && w.flight.Sent? && w.flight.batch != []
    ensures High(Step(w, Process)) > 0
  {
    OneCoreNews(w);
    ProcessedHub(w);
    hide Step, Fresh, Publish, Counting, Filing, Flying, High;
  }

  lemma ProcessedFiling(w: World)
    requires OneCore(w) && w.flight.Sent? && w.flight.batch != []
    ensures Filing(Step(w, Process))
  {
    ProcessedHub(w);
    ProcessedOrdered(w);
    ProcessedWritten(w);
    ProcessedSameAgent(w);
    ProcessedHigh(w);
    hide Step, Fresh, Publish, Ordered, AllWritten, Counting, Flying, High, Carried;
  }

  lemma OneCoreAck(w: World)
    requires OneCore(w) && w.flight.Processed?
    ensures OneCore(Step(w, Ack))
  {
    GrownFiling(w, Step(w, Ack));
  }

  lemma OneCoreRestart(w: World, id: string)
    requires OneCore(w) && id != w.epoch && id !in w.history
    ensures OneCore(Step(w, Restart(id)))
  {
    var w', f := Step(w, Restart(id)), w.hub.filed;
    forall k | 0 <= k < |f|
      ensures f[k].epoch != id && WrittenAt(w', f[k])
    {
      assert WrittenAt(w, f[k]);
    }
  }

  lemma OneCoreStep(w: World, e: Event)
    requires OneCore(w)
    ensures OneCore(Step(w, e))
  {
    match e
    case Write(i, text) => if i < |w.cores| { OneCoreWrite(w, i, text); }
    case Send => OneCoreSend(w);
    case Process => if w.flight.Sent? { OneCoreProcess(w); }
    case Ack => if w.flight.Processed? { OneCoreAck(w); }
    case Restart(id) => if id != w.epoch && id !in w.history { OneCoreRestart(w, id); }
    case LoseRequest => GrownFiling(w, Step(w, e));
    case LoseResponse => GrownFiling(w, Step(w, e));
  }

  /** At most once and in order, for every run of a one-core agent whatever is lost,
      however long the panel is away and however often the agent restarts. */
  lemma {:induction false} OneCoreRun(w: World, events: seq<Event>)
    requires OneCore(w)
    ensures OneCore(Run(w, events))
    decreases |events|
  {
    if events != [] {
      OneCoreStep(w, events[0]);
      OneCoreRun(Step(w, events[0]), events[1..]);
    }
  }

  lemma AtMostOnce(epoch: string, events: seq<Event>)
    ensures var w := Run(Init(epoch, 1), events);
      && Ordered(w.hub.filed)
      && AllWritten(w)
      && (forall i, j :: 0 <= i < j < |w.hub.filed| ==> w.hub.filed[i] != w.hub.filed[j])
      && (w.hub.epoch == w.epoch ==> w.logSeq <= w.hub.next <= w.logSeq + BATCH)
  {
    OneCoreRun(Init(epoch, 1), events);
  }

  // ---------- A request that outlives its agent ----------

  /** Events that do not reach the panel. */
  predicate AgentOnly(events: seq<Event>) {
    forall i :: 0 <= i < |events| ==> events[i].Write? || events[i].Send? || events[i].LoseRequest?
  }

  lemma {:induction false} HubAside(w: World, h: HubNode<Line>, events: seq<Event>)
    requires AgentOnly(events)
    ensures Run(w.(hub := h), events) == Run(w, events).(hub := h) && Run(w, events).hub == w.hub
    decreases |events|
  {
    hide Publish, Collect, Logs;
    if events != [] {
      assert Step(w.(hub := h), events[0]) == Step(w, events[0]).(hub := h);
      HubAside(Step(w, events[0]), h, events[1..]);
    }
  }

  /** The panel may process a dead agent's last request late, up to the first one of its
      successor.  Such a schedule ends where the one in which it was processed before the
      restart ends, so what holds over every run holds of it too. */
  lemma LateDelivery(w: World, id: string, events: seq<Event>)
    requires w.flight.Sent? && id != w.epoch && id !in w.history && AgentOnly(events)
    ensures var late := Run(Step(w, Restart(id)), events).(hub := Publish(w.hub, w.epoch, w.logSeq, w.flight.batch));
      late == Run(w, [Process, Restart(id)] + events)
  {
    hide Publish, Collect;
    var h := Publish(w.hub, w.epoch, w.logSeq, w.flight.batch);
    var all := [Process, Restart(id)] + events;
    assert all[1..][1..] == events && all[1..][0] == Restart(id);
    assert Logs(Step(w, Process)) == Logs(w);
    assert Step(Step(w, Process), Restart(id)) == Step(w, Restart(id)).(hub := h);
    HubAside(Step(w, Restart(id)), h, events);
  }
}
