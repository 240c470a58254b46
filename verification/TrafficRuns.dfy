/** What users are charged over whole schedules of heartbeats: conservation while
    counters only grow, free re-delivery, and enforcement of limits.  Counters that
    restart are in `TrafficCores`. */
module TrafficRuns {

  import opened Traffic
  import opened Wrappers

  // ---------- Sums over finite maps ----------

  ghost function Sum(m: map<Key, int>): int
    decreases |m|
  {
    if m == map[] then 0
    else
      var k :| k in m;
      m[k] + Sum(m - {k})
  }

  lemma {:induction false} SumRemove(m: map<Key, int>, k: Key)
    requires k in m
    ensures Sum(m) == m[k] + Sum(m - {k})
    decreases |m|
  {
    var j :| j in m && Sum(m) == m[j] + Sum(m - {j});
    if j != k {
      SumRemove(m - {j}, k);
      SumRemove(m - {k}, j);
      assert m - {j} - {k} == m - {k} - {j};
    }
  }

  lemma SumUpdate(m: map<Key, int>, k: Key, v: int)
    ensures Sum(m[k := v]) == Sum(m) + v - if k in m then m[k] else 0
  {
    SumRemove(m[k := v], k);
    if k in m {
      SumRemove(m, k);
      assert m[k := v] - {k} == m - {k};
    } else {
      assert m[k := v] - {k} == m;
    }
  }

  /** The part of a per-counter map that belongs to one user. */
  function Of(m: map<Key, int>, id: nat): map<Key, int> {
    map k | k in m && UserOf(k.email) == Some(id) :: m[k]
  }

  // ---------- Schedules ----------

  /** The tables with the bookkeeping a schedule is judged by: what each counter was at
      first contact, and what was charged on its account since. */
  datatype World = World(st: Store, base: map<Key, int>, charged: map<Key, int>)

  /** A heartbeat the panel received.  A lost one is no step at all. */
  datatype Beat = Beat(node: nat, entries: seq<Entry>, readOk: bool, now: int)

  function Charged(w: World, k: Key): int {
    if k in w.charged then w.charged[k] else 0
  }

  function EntryStep(w: World, prev: map<Key, int>, node: nat, e: Entry, now: int): World {
    var key := Key(node, e.email);
    World(
      AccountTotal(w.st, prev, node, e, now),
      if key !in prev && e.writeOk then w.base[key := e.reported] else w.base,
      w.charged[key := Charged(w, key) + EntryCharge(w.st, prev, node, e)])
  }

  function BeatStep(w: World, prev: map<Key, int>, node: nat, entries: seq<Entry>, now: int): World
    decreases |entries|
  {
    if entries == [] then w
    else
      var n := |entries| - 1;
      EntryStep(BeatStep(w, prev, node, entries[..n], now), prev, node, entries[n], now)
  }

  function Deliver(w: World, b: Beat): World {
    if b.entries == [] || !b.readOk then w else BeatStep(w, w.st.snaps, b.node, b.entries, b.now)
  }

  function Run(w: World, beats: seq<Beat>): World
    decreases |beats|
  {
    if beats == [] then w else Run(Deliver(w, beats[0]), beats[1..])
  }

  /** The tables of a schedule are the ones accounting computes. */
  lemma {:induction false} BeatStepIsAccount(w: World, prev: map<Key, int>, node: nat, entries: seq<Entry>, now: int)
    ensures BeatStep(w, prev, node, entries, now).st == AccountAll(w.st, prev, node, entries, true, now)
    decreases |entries|
  {
    if entries != [] {
      BeatStepIsAccount(w, prev, node, entries[..|entries| - 1], now);
    }
  }

  lemma DeliverIsAccount(w: World, b: Beat)
    ensures Deliver(w, b).st == Account(w.st, b.node, b.entries, true, b.readOk, b.now)
  {
    BeatStepIsAccount(w, w.st.snaps, b.node, b.entries, b.now);
  }

  /** Readings a node can make: byte counts, each counter once per heartbeat. */
  ghost predicate Readable(b: Beat) {
    && (forall i :: 0 <= i < |b.entries| ==> 0 <= b.entries[i].reported <= MAX_INT64)
    && (forall i, j :: 0 <= i < j < |b.entries| ==> b.entries[i].email != b.entries[j].email)
  }

  function Cap(x: int): int {
    if x > MAX_INT64 then MAX_INT64 else x
  }

  /** Every user's usage is what it was plus everything charged on its counters, up to
      the largest value the column holds. */
  ghost predicate Billed(w: World, used0: map<nat, int>) {
    && w.st.users.Keys == used0.Keys
    && (forall k :: k in w.charged ==> 0 <= w.charged[k])
    && (forall id :: id in used0 ==> used0[id] <= MAX_INT64 && BilledFor(w, used0[id], id))
  }

  ghost predicate BilledFor(w: World, used0: int, id: nat) {
    id in w.st.users && w.st.users[id].used == Cap(used0 + Sum(Of(w.charged, id)))
  }

  lemma {:induction false} SumNonneg(m: map<Key, int>)
    requires forall k :: k in m ==> 0 <= m[k]
    ensures 0 <= Sum(m)
    decreases |m|
  {
    if m != map[] {
      var j :| j in m && Sum(m) == m[j] + Sum(m - {j});
      SumNonneg(m - {j});
    }
  }

  lemma ChargesNonneg(m: map<Key, int>, id: nat)
    requires forall k :: k in m ==> 0 <= m[k]
    ensures 0 <= Sum(Of(m, id))
  {
    SumNonneg(Of(m, id));
  }

  lemma OfUpdate(m: map<Key, int>, k: Key, v: int, id: nat)
    ensures Of(m[k := v], id) == if UserOf(k.email) == Some(id) then Of(m, id)[k := v] else Of(m, id)
  {
  }

  /** What one entry does to the usage column. */
  lemma EntryUsed(st: Store, prev: map<Key, int>, node: nat, e: Entry, now: int, id: nat)
    requires id in st.users
    ensures AccountTotal(st, prev, node, e, now).users.Keys == st.users.Keys
    ensures AccountTotal(st, prev, node, e, now).users[id].used
      == if UserOf(e.email) == Some(id) && EntryCharge(st, prev, node, e) > 0
         then SatAdd(st.users[id].used, EntryCharge(st, prev, node, e)) else st.users[id].used
  {
  }

  /** Saturating additions one by one are one saturating addition. */
  lemma CapAdd(used0: int, sum: int, delta: int)
    requires used0 <= MAX_INT64 && 0 <= sum && 0 < delta
    ensures SatAdd(Cap(used0 + sum), delta) == Cap(used0 + sum + delta)
  {
  }

  lemma ChargedSum(w: World, key: Key, delta: int, id: nat)
    ensures Sum(Of(w.charged[key := Charged(w, key) + delta], id))
      == Sum(Of(w.charged, id)) + if UserOf(key.email) == Some(id) then delta else 0
  {
    hide UserOf;
    OfUpdate(w.charged, key, Charged(w, key) + delta, id);
    if UserOf(key.email) == Some(id) {
      SumUpdate(Of(w.charged, id), key, Charged(w, key) + delta);
    }
  }

  lemma EntryBilledFor(w: World, used0: map<nat, int>, prev: map<Key, int>, node: nat, e: Entry, now: int, id: nat)
    requires Billed(w, used0) && id in used0
    ensures var w' := EntryStep(w, prev, node, e, now);
      BilledFor(w', used0[id], id)
  {
    hide Sum, AccountTotal, EntryCharge, UserOf, Of, Cap, SatAdd, Charged;
    var delta := EntryCharge(w.st, prev, node, e);
    EntryUsed(w.st, prev, node, e, now, id);
    ChargedSum(w, Key(node, e.email), delta, id);
    ChargesNonneg(w.charged, id);
    if delta > 0 && UserOf(e.email) == Some(id) {
      CapAdd(used0[id], Sum(Of(w.charged, id)), delta);
    }
  }

  lemma EntryBookkeeping(w: World, prev: map<Key, int>, node: nat, e: Entry, now: int)
    requires forall k :: k in w.charged ==> 0 <= w.charged[k]
    ensures var w' := EntryStep(w, prev, node, e, now);
      w'.st.users.Keys == w.st.users.Keys && forall k :: k in w'.charged ==> 0 <= w'.charged[k]
  {
    hide UserOf;
  }

  lemma EntryBilled(w: World, used0: map<nat, int>, prev: map<Key, int>, node: nat, e: Entry, now: int)
    requires Billed(w, used0)
    ensures Billed(EntryStep(w, prev, node, e, now), used0)
  {
    EntryBookkeeping(w, prev, node, e, now);
    hide Sum, EntryStep, Of, Cap, BilledFor;
    var w' := EntryStep(w, prev, node, e, now);
    forall id | id in used0
      ensures BilledFor(w', used0[id], id)
    {
      EntryBilledFor(w, used0, prev, node, e, now, id);
    }
  }

  lemma {:induction false} BeatBilled(w: World, used0: map<nat, int>, prev: map<Key, int>, node: nat, entries: seq<Entry>, now: int)
    requires Billed(w, used0)
    ensures Billed(BeatStep(w, prev, node, entries, now), used0)
    decreases |entries|
  {
    if entries != [] {
      var n := |entries| - 1;
      BeatBilled(w, used0, prev, node, entries[..n], now);
      EntryBilled(BeatStep(w, prev, node, entries[..n], now), used0, prev, node, entries[n], now);
    }
  }

  // ---------- Counters that only grow ----------

  /** No reading of the beat is below the one on record. */
  ghost predicate Growing(w: World, b: Beat) {
    forall i :: 0 <= i < |b.entries| && Key(b.node, b.entries[i].email) in w.st.snaps ==>
      w.st.snaps[Key(b.node, b.entries[i].email)] <= b.entries[i].reported
  }

  ghost predicate GrowingRun(w: World, beats: seq<Beat>)
    decreases |beats|
  {
    beats == [] || (Readable(beats[0]) && Growing(w, beats[0]) && GrowingRun(Deliver(w, beats[0]), beats[1..]))
  }

  /** Each counter was charged exactly its growth since first contact. */
  ghost predicate Conserved(w: World) {
    w.base.Keys == w.st.snaps.Keys && forall k :: KeyConserved(w, k)
  }

  ghost predicate KeyConserved(w: World, k: Key) {
    && (k in w.charged && k !in w.st.snaps ==> w.charged[k] == 0)
    && (k in w.st.snaps && UserOf(k.email).Some? && UserOf(k.email).value in w.st.users ==>
          k in w.base && 0 <= w.st.snaps[k] && Charged(w, k) == w.st.snaps[k] - w.base[k])
  }

  function At(m: map<Key, int>, k: Key): int {
    if k in m then m[k] else 0
  }

  /** Nothing of one counter has changed. */
  ghost predicate Unmoved(w: World, w': World, k: Key) {
    && (k in w'.st.snaps <==> k in w.st.snaps) && At(w'.st.snaps, k) == At(w.st.snaps, k)
    && (k in w'.base <==> k in w.base) && Charged(w', k) == Charged(w, k)
  }

  lemma EntryElsewhere(w: World, prev: map<Key, int>, node: nat, e: Entry, now: int, k: Key)
    requires k != Key(node, e.email)
    ensures Unmoved(w, EntryStep(w, prev, node, e, now), k)
  {
    hide UserOf;
  }

  lemma EntryUsers(w: World, prev: map<Key, int>, node: nat, e: Entry, now: int)
    ensures EntryStep(w, prev, node, e, now).st.users.Keys == w.st.users.Keys
  {
    hide UserOf;
  }

  lemma EntryBases(w: World, prev: map<Key, int>, node: nat, e: Entry, now: int)
    requires w.base.Keys == w.st.snaps.Keys && (Key(node, e.email) in prev <==> Key(node, e.email) in w.st.snaps)
    ensures EntryStep(w, prev, node, e, now).base.Keys == EntryStep(w, prev, node, e, now).st.snaps.Keys
  {
    hide UserOf;
  }

  lemma EntryKeyConserved(w: World, prev: map<Key, int>, node: nat, e: Entry, now: int)
    requires w.base.Keys == w.st.snaps.Keys && KeyConserved(w, Key(node, e.email)) && 0 <= e.reported <= MAX_INT64
    requires var key := Key(node, e.email);
      && (key in prev <==> key in w.st.snaps)
      && (key in prev ==> 0 <= prev[key] == w.st.snaps[key] <= e.reported)
    ensures KeyConserved(EntryStep(w, prev, node, e, now), Key(node, e.email))
  {
    hide UserOf;
  }

  /** One counter of one heartbeat: the table still holds what the heartbeat read. */
  lemma EntryConserved(w: World, prev: map<Key, int>, node: nat, e: Entry, now: int)
    requires Conserved(w) && 0 <= e.reported <= MAX_INT64
    requires var key := Key(node, e.email);
      && (key in prev <==> key in w.st.snaps)
      && (key in prev ==> 0 <= prev[key] == w.st.snaps[key] <= e.reported)
    ensures Conserved(EntryStep(w, prev, node, e, now))
  {
    EntryBases(w, prev, node, e, now);
    EntryKeyConserved(w, prev, node, e, now);
    EntryUsers(w, prev, node, e, now);
    hide EntryStep, UserOf;
    var w' := EntryStep(w, prev, node, e, now);
    forall k ensures KeyConserved(w', k) {
      assert KeyConserved(w, k);
      if k != Key(node, e.email) {
        EntryElsewhere(w, prev, node, e, now, k);
      }
    }
  }

  lemma UntouchedStays(w: World, prev: map<Key, int>, b: Beat, n: nat)
    requires Readable(b) && n < |b.entries| && Untouched(w, prev, b.node, b.entries, n)
    ensures Untouched(EntryStep(w, prev, b.node, b.entries[n], b.now), prev, b.node, b.entries, n + 1)
  {
    hide EntryStep;
    forall i | n + 1 <= i < |b.entries|
      ensures Key(b.node, b.entries[i].email) != Key(b.node, b.entries[n].email)
    {
    }
    forall i | n + 1 <= i < |b.entries| {
      EntryElsewhere(w, prev, b.node, b.entries[n], b.now, Key(b.node, b.entries[i].email));
    }
  }

  /** The part of a heartbeat after the first `n` entries is untouched by them. */
  ghost predicate Untouched(w: World, prev: map<Key, int>, node: nat, entries: seq<Entry>, n: nat) {
    forall i :: n <= i < |entries| ==>
      var key := Key(node, entries[i].email);
      && (key in prev <==> key in w.st.snaps)
      && (key in prev ==> prev[key] == w.st.snaps[key])
  }

  lemma {:induction false} BeatConserved(w: World, b: Beat, n: nat)
    requires Conserved(w) && Readable(b) && Growing(w, b) && n <= |b.entries|
    requires forall k :: k in w.st.snaps ==> 0 <= w.st.snaps[k]
    ensures Conserved(BeatStep(w, w.st.snaps, b.node, b.entries[..n], b.now))
    ensures Untouched(BeatStep(w, w.st.snaps, b.node, b.entries[..n], b.now), w.st.snaps, b.node, b.entries, n)
    decreases n
  {
    hide Conserved, EntryStep;
    if n == 0 {
      assert b.entries[..0] == [];
    } else {
      BeatConserved(w, b, n - 1);
      assert b.entries[..n][..n - 1] == b.entries[..n - 1];
      var v := BeatStep(w, w.st.snaps, b.node, b.entries[..n - 1], b.now);
      EntryConserved(v, w.st.snaps, b.node, b.entries[n - 1], b.now);
      UntouchedStays(v, w.st.snaps, b, n - 1);
    }
  }

  /** Snapshots are byte counts. */
  ghost predicate Counts(w: World) {
    forall k :: k in w.st.snaps ==> 0 <= w.st.snaps[k]
  }

  lemma {:induction false} BeatCounts(w: World, prev: map<Key, int>, node: nat, entries: seq<Entry>, now: int)
    requires Counts(w) && forall i :: 0 <= i < |entries| ==> 0 <= entries[i].reported
    ensures Counts(BeatStep(w, prev, node, entries, now))
    decreases |entries|
  {
    if entries != [] {
      BeatCounts(w, prev, node, entries[..|entries| - 1], now);
    }
  }

  lemma {:induction false} RunConserved(w: World, used0: map<nat, int>, beats: seq<Beat>)
    requires Conserved(w) && Counts(w) && Billed(w, used0) && GrowingRun(w, beats)
    ensures Conserved(Run(w, beats)) && Billed(Run(w, beats), used0)
    decreases |beats|
  {
    if beats != [] {
      var b := beats[0];
      if b.entries != [] && b.readOk {
        BeatConserved(w, b, |b.entries|);
        assert b.entries[..|b.entries|] == b.entries;
        BeatCounts(w, w.st.snaps, b.node, b.entries, b.now);
        BeatBilled(w, used0, w.st.snaps, b.node, b.entries, b.now);
      }
      RunConserved(Deliver(w, b), used0, beats[1..]);
    }
  }

  /** Where a schedule starts: whatever the tables hold is the baseline. */
  function Start(st: Store): World {
    World(st, st.snaps, map[])
  }

  function UsedOf(st: Store): map<nat, int> {
    map id | id in st.users :: st.users[id].used
  }

  /** The growth of every counter of one user since first contact. */
  function Growth(w: World, id: nat): map<Key, int>
    requires w.base.Keys == w.st.snaps.Keys
  {
    map k | k in w.st.snaps && UserOf(k.email) == Some(id) :: w.st.snaps[k] - w.base[k]
  }

  /** Sums agree when the maps agree where they are not zero. */
  lemma {:induction false} SumSame(m: map<Key, int>, n: map<Key, int>)
    requires forall k :: k in m ==> m[k] == if k in n then n[k] else 0
    requires forall k :: k in n && k !in m ==> n[k] == 0
    ensures Sum(m) == Sum(n)
    decreases |m| + |n|
  {
    if k :| k in m {
      SumRemove(m, k);
      if k in n {
        SumRemove(n, k);
        SumSame(m - {k}, n - {k});
      } else {
        SumSame(m - {k}, n);
      }
    } else if k :| k in n {
      SumRemove(n, k);
      SumSame(m, n - {k});
    }
  }

  lemma StartBilled(st: Store)
    requires forall u :: u in st.users ==> st.users[u].used <= MAX_INT64
    ensures Billed(Start(st), UsedOf(st))
  {
    forall u | u in st.users
      ensures Sum(Of(Start(st).charged, u)) == 0
    {
      assert Of(Start(st).charged, u) == map[];
    }
  }

  lemma GrowthIsCharged(w: World, id: nat)
    requires Conserved(w) && id in w.st.users
    ensures Sum(Growth(w, id)) == Sum(Of(w.charged, id))
  {
    assert forall k :: k in w.st.snaps || k in w.charged ==> KeyConserved(w, k);
    SumSame(Growth(w, id), Of(w.charged, id));
  }

  lemma BilledIsGrowth(w: World, used0: map<nat, int>, id: nat)
    requires Conserved(w) && Billed(w, used0) && id in used0
    ensures w.base.Keys == w.st.snaps.Keys && id in w.st.users
    ensures w.st.users[id].used == Cap(used0[id] + Sum(Growth(w, id)))
  {
    hide Sum;
    GrowthIsCharged(w, id);
  }

  lemma StartConserved(st: Store)
    requires forall k :: k in st.snaps ==> 0 <= st.snaps[k]
    ensures Conserved(Start(st)) && Counts(Start(st))
  {
  }

  /** Conservation: over any schedule of lost, repeated and delivered heartbeats, with
      store reads and writes failing anywhere, a user whose counters only grew has been
      charged the sum over nodes of how far each snapshot is past its baseline. */
  lemma ChargesAreGrowth(st: Store, beats: seq<Beat>, id: nat)
    requires id in st.users
    requires forall u :: u in st.users ==> st.users[u].used <= MAX_INT64
    requires forall k :: k in st.snaps ==> 0 <= st.snaps[k]
    requires GrowingRun(Start(st), beats)
    ensures var w := Run(Start(st), beats);
      && w.base.Keys == w.st.snaps.Keys && id in w.st.users
      && w.st.users[id].used == Cap(st.users[id].used + Sum(Growth(w, id)))
  {
    hide Sum, Run, GrowingRun, Conserved, Counts, Billed, Growth;
    StartConserved(st);
    StartBilled(st);
    RunConserved(Start(st), UsedOf(st), beats);
    BilledIsGrowth(Run(Start(st), beats), UsedOf(st), id);
  }

  /** Repeating a heartbeat whose writes all worked changes nothing, whatever then fails. */
  lemma RedeliveryIsFree(st: Store, node: nat, entries: seq<Entry>, again: seq<Entry>, readOk: bool, now: int, later: int)
    requires Readable(Beat(node, entries, true, now))
    requires |again| == |entries|
    requires forall i :: 0 <= i < |entries| ==>
      && entries[i].writeOk
      && again[i].email == entries[i].email && again[i].reported == entries[i].reported
    ensures var once := Account(st, node, entries, true, true, now);
      Account(once, node, again, true, readOk, later) == once
  {
    var once := Account(st, node, entries, true, true, now);
    if entries != [] && readOk {
      AllRecorded(st, st.snaps, node, entries, |entries|, now);
      assert entries[..|entries|] == entries;
      assert forall i :: 0 <= i < |again| ==> Recorded(once, node, entries[i]) && Recorded(once, node, again[i]);
      NothingNew(once, node, again, |again|, later);
      assert again[..|again|] == again;
    }
  }

  /** After a heartbeat each of its counters is on record as reported, unless its user
      is not in the table, and then nothing can be charged to it either. */
  ghost predicate Recorded(st: Store, node: nat, e: Entry) {
    var key := Key(node, e.email);
    || (key in st.snaps && st.snaps[key] == e.reported)
    || (&& UserOf(e.email).Some? && UserOf(e.email).value !in st.users
        && key in st.snaps && TrafficDelta(st.snaps[key], e.reported) > 0)
  }

  /** One entry whose write works is on record, and no other counter moves. */
  lemma EntryOnRecord(st: Store, prev: map<Key, int>, node: nat, e: Entry, now: int)
    requires e.writeOk
    requires var key := Key(node, e.email); (key in prev <==> key in st.snaps) && (key in prev ==> prev[key] == st.snaps[key])
    ensures Recorded(AccountTotal(st, prev, node, e, now), node, e)
    ensures SameExcept(st, AccountTotal(st, prev, node, e, now), Key(node, e.email))
  {
  }

  ghost predicate SameExcept(st: Store, st': Store, key: Key) {
    && st'.users.Keys == st.users.Keys
    && forall k :: k != key ==> (k in st'.snaps <==> k in st.snaps) && (k in st'.snaps ==> st'.snaps[k] == st.snaps[k])
  }

  lemma {:induction false} AllRecorded(st: Store, prev: map<Key, int>, node: nat, entries: seq<Entry>, n: nat, now: int)
    requires prev == st.snaps && n <= |entries|
    requires forall i :: 0 <= i < |entries| ==> entries[i].writeOk
    requires forall i, j :: 0 <= i < j < |entries| ==> entries[i].email != entries[j].email
    ensures var v := AccountAll(st, prev, node, entries[..n], true, now);
      && v.users.Keys == st.users.Keys
      && (forall i :: 0 <= i < n ==> Recorded(v, node, entries[i]))
      && (forall i :: n <= i < |entries| ==> var k := Key(node, entries[i].email);
            (k in v.snaps <==> k in prev) && (k in prev ==> v.snaps[k] == prev[k]))
    decreases n
  {
    if n > 0 {
      AllRecorded(st, prev, node, entries, n - 1, now);
      assert entries[..n][..n - 1] == entries[..n - 1];
      var v, e := AccountAll(st, prev, node, entries[..n - 1], true, now), entries[n - 1];
      EntryOnRecord(v, prev, node, e, now);
    } else {
      assert entries[..0] == [];
    }
  }

  lemma {:induction false} NothingNew(st: Store, node: nat, entries: seq<Entry>, n: nat, now: int)
    requires n <= |entries|
    requires forall i :: 0 <= i < |entries| ==> Recorded(st, node, entries[i])
    ensures AccountAll(st, st.snaps, node, entries[..n], true, now) == st
    decreases n
  {
    if n > 0 {
      NothingNew(st, node, entries, n - 1, now);
      assert entries[..n][..n - 1] == entries[..n - 1];
      EntryRecorded(st, node, entries[n - 1], now);
    } else {
      assert entries[..0] == [];
    }
  }

  lemma EntryRecorded(st: Store, node: nat, e: Entry, now: int)
    requires Recorded(st, node, e)
    ensures AccountTotal(st, st.snaps, node, e, now) == st
  {
    var key := Key(node, e.email);
    assert key in st.snaps;
    if st.snaps[key] == e.reported {
      assert st.snaps[key := e.reported] == st.snaps;
    }
  }

  /** The old protocol, for contrast: a repeated delta is charged a second time. */
  lemma RepeatedDeltaChargesTwice(st: Store, node: nat, e: Entry, now: int)
    requires e.writeOk && 0 < e.reported
    requires UserOf(e.email).Some? && UserOf(e.email).value in st.users
    ensures var id := UserOf(e.email).value;
      var once := Account(st, node, [e], false, true, now);
      var twice := Account(once, node, [e], false, true, now);
      && id in once.users && id in twice.users
      && once.users[id].used == SatAdd(st.users[id].used, e.reported)
      && twice.users[id].used == SatAdd(once.users[id].used, e.reported)
      && (st.users[id].used + 2 * e.reported <= MAX_INT64 ==>
            twice.users[id].used == st.users[id].used + 2 * e.reported)
  {
    var once := Account(st, node, [e], false, true, now);
    assert [e][..0] == [];
    assert AccountAll(st, st.snaps, node, [], false, now) == st;
    assert AccountAll(once, once.snaps, node, [], false, now) == once;
    assert once == AccountDelta(st, e, now);
    assert Account(once, node, [e], false, true, now) == AccountDelta(once, e, now);
  }

  // ---------- Enforcement ----------

  /** A user at or over a limit and still being served. */
  predicate Overrun(u: User) {
    u.limit > 0 && u.used >= u.limit && u.status.Active?
  }

  /** Whoever a heartbeat charges does not come out of it active at or over the limit,
      and an active user it takes over the limit is why the cores are reloaded. */
  lemma {:induction false} ChargedAreEnforced(st: Store, prev: map<Key, int>, node: nat, entries: seq<Entry>, cumulative: bool, now: int, id: nat)
    requires id in st.users
    ensures var st' := AccountAll(st, prev, node, entries, cumulative, now);
      && id in st'.users
      && (st'.users[id] == st.users[id] || !Overrun(st'.users[id]))
      && (st.users[id].status.Active? && st'.users[id].status.Limited? ==> AnyTrips(st, prev, node, entries, cumulative, now))
      && (st.users[id].status != st'.users[id].status ==> st.users[id].status.Active? && st'.users[id].status.Limited?)
    decreases |entries|
  {
    if entries != [] {
      ChargedAreEnforced(st, prev, node, entries[..|entries| - 1], cumulative, now, id);
    }
  }

  lemma DeliverBilled(w: World, used0: map<nat, int>, b: Beat)
    requires Billed(w, used0)
    ensures Billed(Deliver(w, b), used0)
  {
    hide Billed;
    BeatBilled(w, used0, w.st.snaps, b.node, b.entries, b.now);
  }
}
