/** The panel's hub: each node's recent output and the admins watching it, updated in
    place.  `View` is one node's share of the state; the lock section of `Publish` is
    `LogShipping.Publish` on it, and nothing else moves. */
module NodeLogHubs {
  import opened Rings
  import opened LogShipping

  /** A buffered channel, as far as a non-blocking sender can tell. */
  class Watcher {
    var buf: seq<string>

    constructor ()
      ensures buf == []
    {
      buf := [];
    }

    /** `select` with a default: the line is dropped when the queue is full. */
    method Offer(line: string)
      modifies this
      ensures buf == Offered(old(buf), [line])
    {
      if |buf| < QUEUE {
        buf := buf + [line];
      }
    }
  }

  /** A queue after `lines` were offered to it one by one and nothing was received. */
  function Offered(buf: seq<string>, lines: seq<string>): (r: seq<string>)
    ensures buf <= r
    ensures |r| == Max(|buf|, Min(QUEUE, |buf| + |lines|))
    ensures r == buf + lines[..|r| - |buf|]
  {
    buf + lines[..Max(0, Min(|lines|, QUEUE - |buf|))]
  }

  method OfferAll(ch: Watcher, lines: seq<string>)
    modifies ch
    ensures ch.buf == Offered(old(ch.buf), lines)
  {
    for i := 0 to |lines|
      invariant ch.buf == Offered(old(ch.buf), lines[..i])
    {
      ch.Offer(lines[i]);
    }
    assert lines[..|lines|] == lines;
  }

  class NodeLogHub {
    var rings: map<nat, LogRing<string>>
    var next: map<nat, int>
    var epochs: map<nat, string>
    var subs: map<nat, set<Watcher>>

    ghost predicate Valid()
      reads this, rings.Values
    {
      && (forall id :: id in rings ==> rings[id].Valid() && rings[id].size == RING_LINES)
      && (forall a, b :: a in rings && b in rings && a != b ==> rings[a] != rings[b])
    }

    ghost function View(id: nat): HubNode<string>
      reads this, rings.Values
    {
      HubNode(if id in epochs then epochs[id] else "",
              if id in next then next[id] else 0,
              if id in rings then rings[id].all else [])
    }

    function Watching(id: nat): set<Watcher>
      reads this
    {
      if id in subs then subs[id] else {}
    }

    constructor ()
      ensures Valid() && forall id :: View(id) == HubNode("", 0, []) && Watching(id) == {}
    {
      rings, next, epochs, subs := map[], map[], map[], map[];
    }

    /** The node's buffer, created on first use. */
    method Ring(id: nat) returns (r: LogRing<string>)
      requires Valid()
      modifies this`rings
      ensures Valid() && id in rings && rings[id] == r && rings.Values <= old(rings.Values) + {r}
      ensures r in old(rings.Values) || fresh(r)
      ensures forall k :: View(k) == old(View(k))
    {
      hide LogRing.Valid;
      if id !in rings {
        r := new LogRing(RING_LINES);
        rings := rings[id := r];
      } else {
        r := rings[id];
      }
    }

    method Append(id: nat, lines: seq<string>)
      requires Valid()
      modifies this`rings, rings.Values
      ensures Valid() && fresh(rings.Values - old(rings.Values))
      ensures View(id) == old(View(id)).(filed := old(View(id)).filed + lines)
      ensures forall k :: k != id ==> View(k) == old(View(k))
    {
      hide LogRing.Valid;
      var r := Ring(id);
      assert forall k :: k in rings && k != id ==> rings[k] != r;
      r.AddAll(lines);
    }

    /** Judges a batch of `count` lines from `start` by (epoch, sequence): how many of
        them are already here, and, when some are not, that the rest now are. */
    method Admit(id: nat, epoch: string, start: int, count: nat) returns (have: nat)
      requires Valid() && 0 <= start && 0 < count
      modifies this`next, this`epochs
      ensures Valid()
      ensures var want := Max(Expected(old(View(id)), epoch), start);
        && have == (if start + count <= want then count else want - start)
        && View(id) == HubNode(epoch, Max(Expected(old(View(id)), epoch), start + count), old(View(id)).filed)
      ensures forall k :: k != id ==> View(k) == old(View(k))
    {
      hide LogRing.Valid;
      if (if id in epochs then epochs[id] else "") != epoch {
        epochs := epochs[id := epoch];
        next := next[id := 0];
      }
      var want := if id in next then next[id] else 0;
      if start > want {
        want := start;
      }
      var end := start + count;
      if end <= want {
        return count;
      }
      next := next[id := end];
      return want - start;
    }

    /** What `publish` does under the lock: file the new lines and list who watches. */
    method File(id: nat, epoch: string, pos: int, lines: seq<string>) returns (news: seq<string>, watchers: set<Watcher>)
      requires Valid()
      modifies this`rings, this`next, this`epochs, rings.Values
      ensures Valid() && fresh(rings.Values - old(rings.Values))
      ensures news == Fresh(old(View(id)), epoch, pos, lines)
      ensures View(id) == LogShipping.Publish(old(View(id)), epoch, pos, lines)
      ensures forall k :: k != id ==> View(k) == old(View(k))
      ensures watchers == if news == [] then {} else Watching(id)
    {
      hide LogRing.Valid;
      news, watchers := [], {};
      if |lines| == 0 || pos < 0 {
        return;
      }
      var kept, start := lines, pos;
      var extra := |lines| - BATCH;
      if extra > 0 {
        kept, start := lines[extra..], pos + extra;
      }
      assert kept == LastN(lines, BATCH) && start == pos + |lines| - |kept|;
      var have := Admit(id, epoch, start, |kept|);
      if have < |kept| {
        news := kept[have..];
        Append(id, news);
        watchers := Watching(id);
      }
    }

    /** Files a node's lines and offers the new ones to everyone watching it.  The
        sends happen outside the lock; `LogFanout` is about what runs between them. */
    method Publish(id: nat, epoch: string, pos: int, lines: seq<string>)
      requires Valid()
      modifies this`rings, this`next, this`epochs, rings.Values, Watching(id)
      ensures Valid() && fresh(rings.Values - old(rings.Values))
      ensures View(id) == LogShipping.Publish(old(View(id)), epoch, pos, lines)
      ensures forall k :: k != id ==> View(k) == old(View(k))
      ensures subs == old(subs)
      ensures forall ch :: ch in Watching(id) ==>
        ch.buf == Offered(old(ch.buf), Fresh(old(View(id)), epoch, pos, lines))
    {
      hide LogRing.Valid, LogShipping.Publish, Fresh, Offered;
      var news, watchers := File(id, epoch, pos, lines);
      label filed:
      var todo := watchers;
      while todo != {}
        invariant todo <= watchers
        invariant unchanged@filed(this) && unchanged@filed(rings.Values)
        invariant forall ch :: ch in Watching(id) ==>
          ch.buf == Offered(old(ch.buf), if ch in watchers - todo then news else [])
        decreases todo
      {
        var ch :| ch in todo;
        OfferAll(ch, news);
        todo := todo - {ch};
      }
    }

    /** Everything the panel shows of a node, and a queue of what comes next. */
    method Subscribe(id: nat) returns (backlog: seq<string>, ch: Watcher)
      requires Valid()
      modifies this`rings, this`subs
      ensures Valid() && fresh(rings.Values - old(rings.Values)) && fresh(ch)
      ensures Watching(id) == old(Watching(id)) + {ch} && ch.buf == []
      ensures forall k :: k != id ==> Watching(k) == old(Watching(k))
      ensures forall k :: View(k) == old(View(k))
      ensures backlog == LastN(View(id).filed, SNAPSHOT_LINES)
    {
      hide LogRing.Valid, LastN;
      ch := new Watcher();
      subs := subs[id := Watching(id) + {ch}];
      var r := Ring(id);
      backlog := r.Snapshot();
    }

    method Unsubscribe(id: nat, ch: Watcher)
      modifies this`subs
      ensures Watching(id) == old(Watching(id)) - {ch}
      ensures forall k :: k != id ==> Watching(k) == old(Watching(k))
    {
      if id in subs {
        var left := subs[id] - {ch};
        subs := if left == {} then subs - {id} else subs[id := left];
      }
    }

    /** Drops a deleted node's buffer and numbering, and not its watchers. */
    method Forget(id: nat)
      requires Valid()
      modifies this`rings, this`next, this`epochs
      ensures Valid() && View(id) == HubNode("", 0, [])
      ensures forall k :: k != id ==> View(k) == old(View(k))
    {
      rings, next, epochs := rings - {id}, next - {id}, epochs - {id};
    }
  }
}
