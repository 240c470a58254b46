/** The agent's half: what its cores have said, where each cursor stands, and the one
    place those move.  `LogShipping.Collect` and `Advance` are what it computes. */
module LogAgents {
  import opened Rings
  import opened LogShipping

  /** A core's lines as they travel: each carries the core's name. */
  function Prefixed(name: string, lines: seq<string>): (r: seq<string>)
    ensures |r| == |lines|
    ensures forall i :: 0 <= i < |r| ==> r[i] == name + ": " + lines[i]
  {
    seq(|lines|, i requires 0 <= i < |lines| => name + ": " + lines[i])
  }

  class EngineLog {
    const name: string
    const ring: LogRing<string>
    var logCursor: int

    constructor (name: string)
      ensures ring.Valid() && ring.size == RING_LINES && ring.all == [] && logCursor == 0 && fresh(ring)
      ensures this.name == name
    {
      this.name := name;
      ring := new LogRing(RING_LINES);
      logCursor := 0;
    }

    ghost function Core(): LogShipping.Core<string>
      reads this, ring
    {
      LogShipping.Core(Prefixed(name, ring.all), logCursor)
    }
  }

  ghost function CoresOf(engines: seq<EngineLog>): (cores: seq<Core<string>>)
    reads engines, set e | e in engines :: e.ring
    ensures |cores| == |engines|
    ensures forall k :: 0 <= k < |engines| ==> cores[k] == engines[k].Core()
  {
    if engines == [] then [] else [engines[0].Core()] + CoresOf(engines[1..])
  }

  lemma MergeNext<T>(cores: seq<Core<T>>, k: nat, out: seq<T>)
    requires k < |cores| && out + Merge(cores, k) == Merge(cores, 0)
    ensures out + Unsent(cores[k]) + Merge(cores, k + 1) == Merge(cores, 0)
  {
    assert out + (Unsent(cores[k]) + Merge(cores, k + 1)) == out + Unsent(cores[k]) + Merge(cores, k + 1);
  }

  lemma TailCut<T>(s: seq<T>)
    ensures LastN(s, BATCH) == if |s| > BATCH then s[|s| - BATCH..] else s
  {
  }

  class NodeAgent {
    // The supervised cores, in name order: the map they live in never changes after
    // start and is only ever walked through its sorted keys.
    const engines: seq<EngineLog>
    var logSeq: nat

    ghost predicate Valid()
      reads this, engines, set e | e in engines :: e.ring
    {
      && (forall a, b :: 0 <= a < b < |engines| ==> engines[a] != engines[b])
      && (forall k :: 0 <= k < |engines| ==> engines[k].ring.Valid() && engines[k].ring.size == RING_LINES)
    }

    constructor (engines: seq<EngineLog>)
      requires forall a, b :: 0 <= a < b < |engines| ==> engines[a] != engines[b]
      requires forall k :: 0 <= k < |engines| ==> engines[k].ring.Valid() && engines[k].ring.size == RING_LINES
      ensures Valid() && this.engines == engines && logSeq == 0
    {
      this.engines := engines;
      logSeq := 0;
    }

    /** Gathers what the panel has not accepted, and the position each core had reached. */
    method CollectLogs() returns (out: seq<string>, cursors: seq<nat>)
      requires Valid()
      ensures out == Collect(CoresOf(engines))
      ensures cursors == Totals(CoresOf(engines))
    {
      hide Unsent, LastN, LogRing.Valid;
      out, cursors := [], [];
      ghost var cores := CoresOf(engines);
      for k := 0 to |engines|
        invariant |cursors| == k && forall i :: 0 <= i < k ==> cursors[i] == |cores[i].lines|
        invariant out + Merge(cores, k) == Merge(cores, 0)
      {
        hide Merge, EngineLog.Core;
        var lines, next := CollectOne(engines[k]);
        cursors := cursors + [next];
        MergeNext(cores, k, out);
        out := out + lines;
      }
      assert out + [] == out;
      TailCut(out);
      if |out| > BATCH {
        out := out[|out| - BATCH..];
      }
    }

    method CollectOne(e: EngineLog) returns (out: seq<string>, next: nat)
      requires e.ring.Valid() && e.ring.size == RING_LINES
      ensures out == Unsent(e.Core()) && next == |e.Core().lines|
    {
      var lines, total := e.ring.Since(e.logCursor);
      out, next := [], total;
      for j := 0 to |lines|
        invariant out == Prefixed(e.name, lines)[..j]
      {
        out := out + [e.name + ": " + lines[j]];
      }
      assert out == Prefixed(e.name, lines);
    }

    /** What the returned closure does once the heartbeat succeeded. */
    method Accept(count: nat, cursors: seq<nat>)
      requires Valid() && |cursors| == |engines|
      modifies this`logSeq, engines`logCursor
      ensures Valid() && CoresOf(engines) == Advance(old(CoresOf(engines)), cursors)
      ensures logSeq == old(logSeq) + count
    {
      for k := 0 to |engines|
        invariant Valid() && logSeq == old(logSeq)
        invariant forall i :: 0 <= i < |engines| ==>
          engines[i].logCursor == if i < k then cursors[i] else old(engines[i].logCursor)
      {
        engines[k].logCursor := cursors[k];
      }
      logSeq := logSeq + count;
      ghost var now, then' := CoresOf(engines), Advance(old(CoresOf(engines)), cursors);
      assert forall i :: 0 <= i < |engines| ==> now[i] == then'[i];
    }
  }
}
