/** The bounded line buffer that both ends of log shipping use: a core's output on
    the node, and a node's output on the panel.  The buffer overwrites in place and
    is addressed by absolute position, so every read is modular arithmetic; the
    contracts below say what it means in terms of everything ever added. */
module Rings {

  /** The number of lines `Snapshot` returns: the wrapper promises "everything held",
      and the method it calls asks for twenty. */
  const SNAPSHOT_LINES := 20

  function Min(a: int, b: int): int {
    if a < b then a else b
  }

  function Max(a: int, b: int): int {
    if a < b then b else a
  }

  /** The last `k` elements of `s`, or all of it when it has fewer. */
  function LastN<T>(s: seq<T>, k: int): seq<T>
    requires 0 <= k
  {
    if k < |s| then s[|s| - k..] else s
  }

  /** The oldest absolute position a ring of this size still holds. */
  function First(total: nat, size: nat): (first: nat) {
    total - Min(total, size)
  }

  /** Where a read from cursor `c` starts: a cursor behind the window, or ahead of
      the ring, is moved to the oldest line still held. */
  function ReadFrom(total: nat, size: nat, c: int): (from: nat) {
    if c < First(total, size) || c > total then First(total, size) else c
  }

  /** Where a position is kept. */
  function Slot(i: nat, size: nat): (slot: nat)
    requires 0 < size
  {
    i % size
  }

  /** Every line still held is in its slot. */
  ghost predicate InSlots<T>(buf: seq<T>, all: seq<T>, size: nat)
    requires 0 < size && |buf| == Min(|all|, size)
  {
    forall i :: First(|all|, size) <= i < |all| ==> Slot(i, size) < |buf| && buf[Slot(i, size)] == all[i]
  }

  class LogRing<T> {
    const size: nat
    var buf: seq<T>
    var n: nat
    // Every line ever added; position k of the ring is all[k].
    ghost var all: seq<T>

    ghost predicate Valid()
      reads this
    {
      && 0 < size
      && n == |all|
      && |buf| == Min(n, size)
      && InSlots(buf, all, size)
    }

    constructor (requested: int)
      ensures Valid() && all == []
      ensures size == if requested <= 0 then 1 else requested
    {
      size := if requested <= 0 then 1 else requested;
      buf, n, all := [], 0, [];
    }

    /** Appends while there is room and overwrites the oldest slot after that. */
    method Add(line: T)
      requires Valid()
      modifies this
      ensures Valid() && all == old(all) + [line]
    {
      if |buf| < size {
        SlotsBelowSize(n, size);
        buf := buf + [line];
      } else {
        SlotsDiffer(n, size);
        buf := buf[Slot(n, size) := line];
      }
      n := n + 1;
      all := all + [line];
    }

    method AddAll(lines: seq<T>)
      requires Valid()
      modifies this
      ensures Valid() && all == old(all) + lines
    {
      for i := 0 to |lines|
        invariant Valid() && all == old(all) + lines[..i]
      {
        Add(lines[i]);
        assert lines[..i + 1] == lines[..i] + [lines[i]];
      }
      assert lines[..|lines|] == lines;
    }

    /** The lines at or after position `c`, oldest first, and the next position. */
    method Since(c: int) returns (out: seq<T>, next: nat)
      requires Valid()
      ensures next == |all| && out == all[ReadFrom(|all|, size, c)..]
    {
      hide InSlots, Slot;
      var held := n;
      if held > size {
        held := size;
      }
      if held > |buf| {
        held := |buf|;
      }
      var first := n - held;
      var from := c;
      if c < first || c > n {
        from := first;
      }
      out := [];
      for i := from to n
        invariant out == all[from..i]
      {
        HeldInSlot(buf, all, size, i);
        out := out + [buf[Slot(i, size)]];
      }
      next := n;
    }

    /** The newest `k` lines still held, oldest first. */
    method SnapshotN(k: int) returns (out: seq<T>)
      requires Valid()
      ensures out == LastN(all, Max(0, Min(k, size)))
    {
      hide InSlots, Slot, LastN, Max;
      var held := n;
      if held > size {
        held := size;
      }
      if held > |buf| {
        held := |buf|;
      }
      var take := k;
      if take > held {
        take := held;
      }
      TailTaken(all, size, k, take);
      if take <= 0 {
        return [];
      }
      out := [];
      for j := held - take to held
        invariant out == all[n - take..n - held + j]
      {
        ghost var i := n - held + j;
        HeldInSlot(buf, all, size, i);
        out := out + [buf[Slot(n - held + j, size)]];
        OneLonger(all, n - take, i);
      }
    }

    /** Not everything held: the newest twenty lines at most. */
    method Snapshot() returns (out: seq<T>)
      requires Valid()
      ensures out == LastN(all, Min(SNAPSHOT_LINES, size))
    {
      out := SnapshotN(SNAPSHOT_LINES);
    }
  }

  /** While the ring is not full its slots are the positions themselves. */
  lemma SlotsBelowSize(n: nat, size: nat)
    requires 0 < size
    ensures forall i :: 0 <= i < size ==> Slot(i, size) == i
  {
  }

  /** Within one window no two positions share a slot. */
  lemma SlotsDiffer(n: nat, size: nat)
    requires 0 < size
    ensures forall i :: n - size < i < n && 0 <= i ==> Slot(i, size) != Slot(n, size)
  {
    forall i | n - size < i < n && 0 <= i
      ensures Slot(i, size) != Slot(n, size)
    {
      if i % size == n % size {
        MultipleOfSize(size, n / size - i / size);
      }
    }
  }

  lemma MultipleOfSize(size: nat, q: int)
    requires 0 < size
    ensures size * q <= 0 || size <= size * q
  {
  }

  lemma HeldInSlot<T>(buf: seq<T>, all: seq<T>, size: nat, i: nat)
    requires 0 < size && |buf| == Min(|all|, size) && InSlots(buf, all, size) && First(|all|, size) <= i < |all|
    ensures Slot(i, size) < |buf| && buf[Slot(i, size)] == all[i]
  {
  }

  /** The newest `k` lines held, counted by what is held. */
  lemma TailTaken<T>(all: seq<T>, size: nat, k: int, take: int)
    requires take == Min(k, Min(|all|, size))
    ensures LastN(all, Max(0, Min(k, size))) == if take <= 0 then [] else all[|all| - take..|all|]
  {
  }

  lemma OneLonger<T>(s: seq<T>, lo: nat, i: nat)
    requires lo <= i < |s|
    ensures s[lo..i + 1] == s[lo..i] + [s[i]]
  {
  }

  /** The two windows a reader gets from one ring agree: what a caller at cursor `c`
      is given is exactly what it has not seen, unless the ring has moved past it,
      in which case it is the newest `size` lines. */
  lemma ReadIsUnseenOrWindow<T>(all: seq<T>, size: nat, c: nat)
    requires c <= |all|
    ensures all[ReadFrom(|all|, size, c)..] == LastN(all[c..], size)
  {
  }
}
