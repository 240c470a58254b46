/** Counters that restart.  A node serves a user through two cores, each with a counter of
    its own that starts over when that core does, and reports the sum over the cores that
    answered.  A law says, over every run, exactly how far the charge is from what was
    served; from it follow the runs that never overcharge and the readings that do. */
module TrafficCores {

  import opened Traffic
  import opened TrafficRuns
  import opened Wrappers

  datatype CoreName = Xray | Singbox

  const BOTH: set<CoreName> := {Xray, Singbox}

  /** One core's counter of one user on one node. */
  datatype Slot = Slot(key: Key, core: CoreName)

  /** `counter` is what the cores hold and `total` the bytes served on a counter since its
      first contact.  The rest is bookkeeping: `held` is the part of the recorded reading
      that a core holds and has not lost since, and `credit` what restarts took from the
      counters that no charge has covered yet. */
  datatype Served = Served(counter: Slot -> int, total: map<Key, int>, held: Slot -> int, credit: Key -> int)

  datatype Happening =
    | Serve(key: Key, core: CoreName, bytes: nat)
    | Restart(node: nat, cores: set<CoreName>)
    | Contact(beat: Beat, answered: set<CoreName>)

  function Part(f: Slot -> int, k: Key, cores: set<CoreName>): int {
    (if Xray in cores then f(Slot(k, Xray)) else 0) + (if Singbox in cores then f(Slot(k, Singbox)) else 0)
  }

  /** What a node reports when `answered` answered. */
  function Reading(s: Served, k: Key, answered: set<CoreName>): int {
    Part(s.counter, k, answered)
  }

  function Full(s: Served, k: Key): int {
    Reading(s, k, BOTH)
  }

  /** The part of the recorded reading that cores which did not restart still hold. */
  function Kept(s: Served, k: Key): int {
    Part(s.held, k, BOTH)
  }

  // ---------- Runs ----------

  function ServeOn(s: Served, w: World, k: Key, core: CoreName, bytes: nat): Served {
    s.(counter := (x: Slot) => if x == Slot(k, core) then s.counter(x) + bytes else s.counter(x),
       total := if k in w.base then s.total[k := At(s.total, k) + bytes] else s.total)
  }

  function RestartOn(s: Served, node: nat, cores: set<CoreName>): Served {
    s.(counter := (x: Slot) => if x.key.node == node && x.core in cores then 0 else s.counter(x),
       held := (x: Slot) => if x.key.node == node && x.core in cores then 0 else s.held(x),
       credit := (k: Key) => if k.node == node then s.credit(k) + Reading(s, k, cores) else s.credit(k))
  }

  /** Bookkeeping for one entry whose write works: the reading is on record. */
  function Settle(s: Served, prev: map<Key, int>, node: nat, e: Entry, answered: set<CoreName>): Served {
    var key := Key(node, e.email);
    if !e.writeOk then s
    else
      s.(held := (x: Slot) => if x.key == key then (if x.core in answered then s.counter(x) else 0) else s.held(x),
         credit := (k: Key) =>
           if k != key then s.credit(k)
           else if key !in prev then e.reported - Full(s, key)
           else if e.reported < prev[key] then s.credit(k) - prev[key]
           else s.credit(k))
  }

  function SettleAll(s: Served, prev: map<Key, int>, node: nat, entries: seq<Entry>, answered: set<CoreName>): Served
    decreases |entries|
  {
    if entries == [] then s
    else
      var n := |entries| - 1;
      Settle(SettleAll(s, prev, node, entries[..n], answered), prev, node, entries[n], answered)
  }

  function Live(s: Served, w: World, h: Happening): Served {
    match h
    case Serve(k, core, bytes) => ServeOn(s, w, k, core, bytes)
    case Restart(node, cores) => RestartOn(s, node, cores)
    case Contact(b, answered) =>
      if b.entries == [] || !b.readOk then s else SettleAll(s, w.st.snaps, b.node, b.entries, answered)
  }

  function Billing(w: World, h: Happening): World {
    match h
    case Contact(b, _) => Deliver(w, b)
    case _ => w
  }

  function RunServed(s: Served, w: World, hs: seq<Happening>): (Served, World)
    decreases |hs|
  {
    if hs == [] then (s, w) else RunServed(Live(s, w, hs[0]), Billing(w, hs[0]), hs[1..])
  }

  /** A heartbeat reports, of each counter it mentions, the sum over the cores that answered. */
  ghost predicate Truthful(s: Served, b: Beat, answered: set<CoreName>) {
    && Readable(b)
    && forall i :: 0 <= i < |b.entries| ==>
         b.entries[i].reported == Reading(s, Key(b.node, b.entries[i].email), answered)
  }

  ghost predicate TruthfulRun(s: Served, w: World, hs: seq<Happening>)
    decreases |hs|
  {
    hs == [] ||
    (&& (hs[0].Contact? ==> Truthful(s, hs[0].beat, hs[0].answered))
     && TruthfulRun(Live(s, w, hs[0]), Billing(w, hs[0]), hs[1..]))
  }

  // ---------- The law ----------

  /** The counter belongs to a user the panel knows. */
  predicate Billable(w: World, k: Key) {
    TrafficUser(k).Some? && TrafficUser(k).value in w.st.users
  }

  function TrafficUser(k: Key): Option<nat> {
    UserOf(k.email)
  }

  /** What was charged, and what a full reading would add to it, is what was served, up to
      the credit. */
  ghost predicate Balanced(s: Served, w: World, k: Key) {
    && 0 <= s.counter(Slot(k, Xray)) && 0 <= s.counter(Slot(k, Singbox))
    && 0 <= At(w.st.snaps, k) && 0 <= Charged(w, k) && 0 <= At(s.total, k)
    && (k in w.base <==> k in w.st.snaps)
    && (k !in w.base ==> Charged(w, k) == 0 && At(s.total, k) == 0)
    && (k in w.base && Billable(w, k) ==>
          Charged(w, k) + Full(s, k) + s.credit(k) - w.st.snaps[k] == At(s.total, k))
  }

  ghost predicate OnRecord(w: World, prev: map<Key, int>, key: Key) {
    (key in prev <==> key in w.st.snaps) && (key in prev ==> 0 <= prev[key] == w.st.snaps[key])
  }

  lemma EntryFails(w: World, prev: map<Key, int>, node: nat, e: Entry, now: int)
    requires !e.writeOk
    ensures Unmoved(w, EntryStep(w, prev, node, e, now), Key(node, e.email))
  {
    hide UserOf;
  }

  lemma EntryFirst(w: World, prev: map<Key, int>, node: nat, e: Entry, now: int)
    requires e.writeOk && Key(node, e.email) !in prev
    ensures var key, w' := Key(node, e.email), EntryStep(w, prev, node, e, now);
      key in w'.st.snaps && key in w'.base && w'.st.snaps[key] == e.reported && Charged(w', key) == Charged(w, key)
  {
    hide UserOf;
  }

  lemma EntryRecords(w: World, prev: map<Key, int>, node: nat, e: Entry, now: int)
    requires e.writeOk && Key(node, e.email) in prev && OnRecord(w, prev, Key(node, e.email)) && 0 <= e.reported <= MAX_INT64
    ensures var key, w' := Key(node, e.email), EntryStep(w, prev, node, e, now);
      && key in w'.st.snaps && 0 <= w'.st.snaps[key] && (key in w'.base <==> key in w.base)
      && Charged(w, key) <= Charged(w', key)
    ensures var key, w' := Key(node, e.email), EntryStep(w, prev, node, e, now);
      Billable(w, key) ==>
        && w'.st.snaps[key] == e.reported
        && Charged(w', key) == Charged(w, key) + if e.reported < prev[key] then e.reported else e.reported - prev[key]
  {
    hide UserOf;
  }

  lemma EntryBalanced(s: Served, w: World, prev: map<Key, int>, node: nat, e: Entry, answered: set<CoreName>, now: int, k: Key)
    requires Balanced(s, w, k) && OnRecord(w, prev, Key(node, e.email)) && 0 <= e.reported <= MAX_INT64
    ensures Balanced(Settle(s, prev, node, e, answered), EntryStep(w, prev, node, e, now), k)
  {
    EntryUsers(w, prev, node, e, now);
    if k != Key(node, e.email) {
      EntryElsewhere(w, prev, node, e, now, k);
    } else if !e.writeOk {
      EntryFails(w, prev, node, e, now);
    } else if k !in prev {
      EntryFirst(w, prev, node, e, now);
    } else {
      EntryRecords(w, prev, node, e, now);
    }
    hide EntryStep, TrafficUser, Charged;
  }

  // ---------- One heartbeat ----------

  lemma {:induction false} SettleTouches(s: Served, prev: map<Key, int>, node: nat, entries: seq<Entry>, answered: set<CoreName>)
    ensures var s' := SettleAll(s, prev, node, entries, answered);
      && s'.counter == s.counter && s'.total == s.total
      && forall k: Key :: (k.node != node || forall i :: 0 <= i < |entries| ==> entries[i].email != k.email) ==>
           s'.credit(k) == s.credit(k) && Kept(s', k) == Kept(s, k)
    decreases |entries|
  {
    if entries != [] {
      SettleTouches(s, prev, node, entries[..|entries| - 1], answered);
    }
  }

  /** The entries still to come find their counters as the heartbeat found them. */
  ghost predicate AheadOnRecord(w: World, prev: map<Key, int>, b: Beat, n: nat) {
    forall i :: n <= i < |b.entries| ==> OnRecord(w, prev, Key(b.node, b.entries[i].email))
  }

  lemma {:induction false} BeatUsers(w: World, prev: map<Key, int>, node: nat, entries: seq<Entry>, now: int)
    ensures BeatStep(w, prev, node, entries, now).st.users.Keys == w.st.users.Keys
    decreases |entries|
  {
    hide EntryStep;
    if entries != [] {
      var n := |entries| - 1;
      BeatUsers(w, prev, node, entries[..n], now);
      EntryUsers(BeatStep(w, prev, node, entries[..n], now), prev, node, entries[n], now);
    }
  }

  lemma AheadStays(w: World, prev: map<Key, int>, b: Beat, n: nat)
    requires Readable(b) && n < |b.entries| && AheadOnRecord(w, prev, b, n)
    ensures AheadOnRecord(EntryStep(w, prev, b.node, b.entries[n], b.now), prev, b, n + 1)
  {
    hide EntryStep;
    forall i | n + 1 <= i < |b.entries|
      ensures OnRecord(EntryStep(w, prev, b.node, b.entries[n], b.now), prev, Key(b.node, b.entries[i].email))
    {
      assert OnRecord(w, prev, Key(b.node, b.entries[i].email));
      EntryElsewhere(w, prev, b.node, b.entries[n], b.now, Key(b.node, b.entries[i].email));
    }
  }

  lemma {:induction false} BeatAhead(s: Served, w: World, b: Beat, n: nat)
    requires Readable(b) && n <= |b.entries| && forall k :: Balanced(s, w, k)
    ensures AheadOnRecord(BeatStep(w, w.st.snaps, b.node, b.entries[..n], b.now), w.st.snaps, b, n)
  {
    if n == 0 {
      forall i | 0 <= i < |b.entries| ensures OnRecord(w, w.st.snaps, Key(b.node, b.entries[i].email)) {
        assert Balanced(s, w, Key(b.node, b.entries[i].email));
      }
    } else {
      hide Balanced, EntryStep, AheadOnRecord;
      BeatAhead(s, w, b, n - 1);
      assert b.entries[..n][..n - 1] == b.entries[..n - 1];
      AheadStays(BeatStep(w, w.st.snaps, b.node, b.entries[..n - 1], b.now), w.st.snaps, b, n - 1);
    }
  }

  lemma {:induction false} BeatBalanced(s: Served, w: World, b: Beat, answered: set<CoreName>, n: nat)
    requires Readable(b) && n <= |b.entries| && forall k :: Balanced(s, w, k)
    ensures forall k :: Balanced(SettleAll(s, w.st.snaps, b.node, b.entries[..n], answered),
                                 BeatStep(w, w.st.snaps, b.node, b.entries[..n], b.now), k)
  {
    hide Balanced, EntryStep, Settle, OnRecord;
    if n == 0 {
      assert b.entries[..0] == [];
    } else {
      BeatBalanced(s, w, b, answered, n - 1);
      BeatAhead(s, w, b, n - 1);
      assert b.entries[..n][..n - 1] == b.entries[..n - 1];
      var t := SettleAll(s, w.st.snaps, b.node, b.entries[..n - 1], answered);
      var v := BeatStep(w, w.st.snaps, b.node, b.entries[..n - 1], b.now);
      forall k
        ensures Balanced(SettleAll(s, w.st.snaps, b.node, b.entries[..n], answered),
                         BeatStep(w, w.st.snaps, b.node, b.entries[..n], b.now), k)
      {
        EntryBalanced(t, v, w.st.snaps, b.node, b.entries[n - 1], answered, b.now, k);
      }
    }
  }

  lemma ServeBalanced(s: Served, w: World, key: Key, core: CoreName, bytes: nat, k: Key)
    requires Balanced(s, w, k)
    ensures Balanced(ServeOn(s, w, key, core, bytes), w, k)
  {
    hide TrafficUser, Charged;
  }

  lemma RestartBalanced(s: Served, w: World, node: nat, cores: set<CoreName>, k: Key)
    requires Balanced(s, w, k)
    ensures Balanced(RestartOn(s, node, cores), w, k)
  {
    hide TrafficUser, Charged;
  }

  lemma HappeningBalanced(s: Served, w: World, h: Happening)
    requires (forall k :: Balanced(s, w, k)) && (h.Contact? ==> Readable(h.beat))
    ensures forall k :: Balanced(Live(s, w, h), Billing(w, h), k)
  {
    hide Balanced, ServeOn, RestartOn;
    match h
    case Serve(key, core, bytes) =>
      forall k ensures Balanced(Live(s, w, h), Billing(w, h), k) {
        ServeBalanced(s, w, key, core, bytes, k);
      }
    case Restart(node, cores) =>
      forall k ensures Balanced(Live(s, w, h), Billing(w, h), k) {
        RestartBalanced(s, w, node, cores, k);
      }
    case Contact(b, answered) =>
      assert b.entries[..|b.entries|] == b.entries;
      BeatBalanced(s, w, b, answered, |b.entries|);
  }

  // ---------- The runs that never overcharge ----------

  /** Nothing is owed that no counter could show: the recorded reading is covered by what
      cores still hold of it and by what restarts took. */
  ghost predicate Covered(s: Served, w: World, k: Key) {
    && 0 <= s.held(Slot(k, Xray)) <= s.counter(Slot(k, Xray))
    && 0 <= s.held(Slot(k, Singbox)) <= s.counter(Slot(k, Singbox))
    && (k in w.st.snaps && Billable(w, k) ==> 0 <= s.credit(k) && w.st.snaps[k] <= s.credit(k) + Kept(s, k))
  }

  /** A reading below the recorded one finds nothing of that one left in a core that did not
      restart; and a first reading leaves no core out.  Which reading is on record only the
      panel knows for certain, so this is judged over node and panel together. */
  ghost predicate SoundReading(s: Served, w: World, key: Key, reported: int) {
    if key in w.st.snaps then reported >= w.st.snaps[key] || Kept(s, key) == 0 else reported == Full(s, key)
  }

  ghost predicate SoundEntry(s: Served, w: World, key: Key, e: Entry) {
    e.writeOk && Billable(w, key) ==> SoundReading(s, w, key, e.reported)
  }

  ghost predicate Sound(s: Served, w: World, b: Beat) {
    forall i :: 0 <= i < |b.entries| ==> SoundEntry(s, w, Key(b.node, b.entries[i].email), b.entries[i])
  }

  ghost predicate SoundRun(s: Served, w: World, hs: seq<Happening>)
    decreases |hs|
  {
    hs == [] ||
    (&& (hs[0].Contact? ==> Truthful(s, hs[0].beat, hs[0].answered) && (hs[0].beat.readOk ==> Sound(s, w, hs[0].beat)))
     && SoundRun(Live(s, w, hs[0]), Billing(w, hs[0]), hs[1..]))
  }

  lemma EntryCovered(s: Served, w: World, prev: map<Key, int>, node: nat, e: Entry, answered: set<CoreName>, now: int, k: Key)
    requires Balanced(s, w, k) && Covered(s, w, k) && OnRecord(w, prev, Key(node, e.email))
    requires e.reported == Reading(s, Key(node, e.email), answered) && 0 <= e.reported <= MAX_INT64
    requires k == Key(node, e.email) ==> SoundEntry(s, w, k, e)
    ensures Covered(Settle(s, prev, node, e, answered), EntryStep(w, prev, node, e, now), k)
  {
    EntryUsers(w, prev, node, e, now);
    if k != Key(node, e.email) {
      EntryElsewhere(w, prev, node, e, now, k);
    } else if !e.writeOk {
      EntryFails(w, prev, node, e, now);
    } else if k !in prev {
      EntryFirst(w, prev, node, e, now);
    } else {
      EntryRecords(w, prev, node, e, now);
    }
    hide EntryStep, TrafficUser, Charged;
  }

  lemma {:induction false} BeatCovered(s: Served, w: World, b: Beat, answered: set<CoreName>, n: nat)
    requires Truthful(s, b, answered) && Sound(s, w, b) && n <= |b.entries|
    requires forall k :: Balanced(s, w, k) && Covered(s, w, k)
    ensures forall k :: Covered(SettleAll(s, w.st.snaps, b.node, b.entries[..n], answered),
                                BeatStep(w, w.st.snaps, b.node, b.entries[..n], b.now), k)
  {
    hide Balanced, Covered, EntryStep, Settle, OnRecord, SoundEntry;
    if n == 0 {
      assert b.entries[..0] == [];
    } else {
      BeatCovered(s, w, b, answered, n - 1);
      BeatBalanced(s, w, b, answered, n - 1);
      BeatAhead(s, w, b, n - 1);
      assert b.entries[..n][..n - 1] == b.entries[..n - 1];
      var t := SettleAll(s, w.st.snaps, b.node, b.entries[..n - 1], answered);
      var v := BeatStep(w, w.st.snaps, b.node, b.entries[..n - 1], b.now);
      var key := Key(b.node, b.entries[n - 1].email);
      StillSound(s, w, b, answered, n);
      forall k
        ensures Covered(SettleAll(s, w.st.snaps, b.node, b.entries[..n], answered),
                        BeatStep(w, w.st.snaps, b.node, b.entries[..n], b.now), k)
      {
        EntryCovered(t, v, w.st.snaps, b.node, b.entries[n - 1], answered, b.now, k);
      }
    }
  }

  /** An entry is judged as the heartbeat found things. */
  lemma StillSound(s: Served, w: World, b: Beat, answered: set<CoreName>, n: nat)
    requires Truthful(s, b, answered) && Sound(s, w, b) && 0 < n <= |b.entries|
    requires forall k :: Balanced(s, w, k)
    ensures var t := SettleAll(s, w.st.snaps, b.node, b.entries[..n - 1], answered);
      var v := BeatStep(w, w.st.snaps, b.node, b.entries[..n - 1], b.now);
      var e := b.entries[n - 1];
      && e.reported == Reading(t, Key(b.node, e.email), answered)
      && SoundEntry(t, v, Key(b.node, e.email), e)
  {
    hide Balanced;
    SettleTouches(s, w.st.snaps, b.node, b.entries[..n - 1], answered);
    BeatAhead(s, w, b, n - 1);
    var key := Key(b.node, b.entries[n - 1].email);
    var v := BeatStep(w, w.st.snaps, b.node, b.entries[..n - 1], b.now);
    assert OnRecord(v, w.st.snaps, key);
    assert SoundEntry(s, w, key, b.entries[n - 1]);
    BeatUsers(w, w.st.snaps, b.node, b.entries[..n - 1], b.now);
    hide BeatStep, SettleAll, Sound, AheadOnRecord;
  }

  lemma ServeCovered(s: Served, w: World, key: Key, core: CoreName, bytes: nat, k: Key)
    requires Covered(s, w, k)
    ensures Covered(ServeOn(s, w, key, core, bytes), w, k)
  {
    hide TrafficUser;
  }

  lemma RestartCovered(s: Served, w: World, node: nat, cores: set<CoreName>, k: Key)
    requires Covered(s, w, k)
    ensures Covered(RestartOn(s, node, cores), w, k)
  {
    hide TrafficUser;
  }

  lemma HappeningCovered(s: Served, w: World, h: Happening)
    requires forall k :: Balanced(s, w, k) && Covered(s, w, k)
    requires h.Contact? ==> Truthful(s, h.beat, h.answered) && (h.beat.readOk ==> Sound(s, w, h.beat))
    ensures forall k :: Covered(Live(s, w, h), Billing(w, h), k)
  {
    hide Balanced, Covered, ServeOn, RestartOn, Truthful, Sound;
    match h
    case Serve(key, core, bytes) =>
      forall k ensures Covered(Live(s, w, h), Billing(w, h), k) {
        ServeCovered(s, w, key, core, bytes, k);
      }
    case Restart(node, cores) =>
      forall k ensures Covered(Live(s, w, h), Billing(w, h), k) {
        RestartCovered(s, w, node, cores, k);
      }
    case Contact(b, answered) =>
      if b.readOk && b.entries != [] {
        assert b.entries[..|b.entries|] == b.entries;
        BeatCovered(s, w, b, answered, |b.entries|);
      }
  }

  // ---------- Over every run ----------

  /** Wherever a schedule starts, with nothing on record. */
  function Begin(counter: Slot -> int): Served {
    Served(counter, map[], (x: Slot) => 0, (k: Key) => 0)
  }

  ghost predicate ByteCounts(counter: Slot -> int) {
    forall x :: 0 <= counter(x)
  }

  lemma BeginHolds(st: Store, counter: Slot -> int, k: Key)
    requires st.snaps == map[] && ByteCounts(counter)
    ensures Balanced(Begin(counter), Start(st), k) && Covered(Begin(counter), Start(st), k)
  {
    hide TrafficUser;
  }

  /** The law over every run, whatever restarts, does not answer, is lost, is repeated or
      fails: nothing is charged but growth, and credit says how far that is from what was
      served. */
  lemma {:induction false} CreditLaw(s: Served, w: World, used0: map<nat, int>, hs: seq<Happening>)
    requires TruthfulRun(s, w, hs) && Billed(w, used0) && forall k :: Balanced(s, w, k)
    ensures var (s', w') := RunServed(s, w, hs);
      Billed(w', used0) && forall k :: Balanced(s', w', k)
    decreases |hs|
  {
    hide Billed, Balanced, Live, Deliver;
    if hs != [] {
      HappeningBalanced(s, w, hs[0]);
      if hs[0].Contact? {
        DeliverBilled(w, used0, hs[0].beat);
      }
      CreditLaw(Live(s, w, hs[0]), Billing(w, hs[0]), used0, hs[1..]);
    }
  }

  lemma {:induction false} SoundIsTruthful(s: Served, w: World, hs: seq<Happening>)
    requires SoundRun(s, w, hs)
    ensures TruthfulRun(s, w, hs)
    decreases |hs|
  {
    hide Live, Billing, Truthful, Sound;
    if hs != [] {
      SoundIsTruthful(Live(s, w, hs[0]), Billing(w, hs[0]), hs[1..]);
    }
  }

  ghost predicate AllCovered(s: Served, w: World) {
    forall k :: Balanced(s, w, k) && Covered(s, w, k)
  }

  lemma AllHappeningCovered(s: Served, w: World, h: Happening)
    requires AllCovered(s, w)
    requires h.Contact? ==> Truthful(s, h.beat, h.answered) && (h.beat.readOk ==> Sound(s, w, h.beat))
    ensures AllCovered(Live(s, w, h), Billing(w, h))
  {
    hide Balanced, Covered, Live, Billing, Sound;
    HappeningBalanced(s, w, h);
    HappeningCovered(s, w, h);
  }

  lemma {:induction false} RunCovered(s: Served, w: World, hs: seq<Happening>)
    requires SoundRun(s, w, hs) && AllCovered(s, w)
    ensures AllCovered(RunServed(s, w, hs).0, RunServed(s, w, hs).1)
    decreases |hs|
  {
    hide AllCovered, Live, Billing, Truthful, Sound;
    if hs != [] {
      AllHappeningCovered(s, w, hs[0]);
      RunCovered(Live(s, w, hs[0]), Billing(w, hs[0]), hs[1..]);
    }
  }

  lemma CoveredIsServed(s: Served, w: World, k: Key)
    requires Balanced(s, w, k) && Covered(s, w, k) && Billable(w, k)
    ensures Charged(w, k) <= At(s.total, k)
  {
    hide TrafficUser, Charged;
  }

  lemma {:induction false} SumLe(m: map<Key, int>, n: map<Key, int>)
    requires forall k :: k in m ==> m[k] <= At(n, k)
    requires forall k :: k in n ==> 0 <= n[k]
    ensures Sum(m) <= Sum(n)
    decreases |m|
  {
    if k :| k in m {
      SumRemove(m, k);
      if k in n {
        SumRemove(n, k);
        SumLe(m - {k}, n - {k});
      } else {
        SumLe(m - {k}, n);
      }
    } else {
      assert m == map[];
      SumNonneg(n);
    }
  }

  lemma TotalsCount(s: Served, w: World, k: Key)
    requires Balanced(s, w, k)
    ensures 0 <= At(s.total, k)
  {
  }

  /** No overcharge: with two cores that restart and answer each on its own, whatever is
      lost, repeated or fails, a user is never charged more than was served since first
      contact, as long as every reading below the recorded one finds nothing of that one
      left in a core that did not restart. */
  lemma ChargesAreServed(st: Store, counter: Slot -> int, hs: seq<Happening>, id: nat)
    requires st.snaps == map[] && id in st.users && ByteCounts(counter)
    requires forall u :: u in st.users ==> st.users[u].used <= MAX_INT64
    requires SoundRun(Begin(counter), Start(st), hs)
    ensures var (s, w) := RunServed(Begin(counter), Start(st), hs);
      && id in w.st.users
      && w.st.users[id].used <= Cap(st.users[id].used + Sum(Of(s.total, id)))
      && forall k: Key :: UserOf(k.email) == Some(id) ==> Charged(w, k) <= At(s.total, k)
  {
    hide Sum, RunServed, SoundRun, TruthfulRun, Billed, Balanced, Covered, Charged, Begin, UserOf;
    forall k ensures Balanced(Begin(counter), Start(st), k) && Covered(Begin(counter), Start(st), k) {
      BeginHolds(st, counter, k);
    }
    StartBilled(st);
    SoundIsTruthful(Begin(counter), Start(st), hs);
    CreditLaw(Begin(counter), Start(st), UsedOf(st), hs);
    RunCovered(Begin(counter), Start(st), hs);
    var (s, w) := RunServed(Begin(counter), Start(st), hs);
    BilledIsServed(s, w, UsedOf(st), id);
  }

  lemma BilledIsServed(s: Served, w: World, used0: map<nat, int>, id: nat)
    requires Billed(w, used0) && id in used0 && forall k :: Balanced(s, w, k) && Covered(s, w, k)
    ensures id in w.st.users && w.st.users[id].used <= Cap(used0[id] + Sum(Of(s.total, id)))
    ensures forall k: Key :: UserOf(k.email) == Some(id) ==> Charged(w, k) <= At(s.total, k)
  {
    hide Sum, UserOf, Balanced, Covered;
    forall k: Key | UserOf(k.email) == Some(id) ensures Charged(w, k) <= At(s.total, k) {
      CoveredIsServed(s, w, k);
    }
    forall k | k in s.total ensures 0 <= s.total[k] {
      TotalsCount(s, w, k);
    }
    forall k | k in Of(w.charged, id) ensures Of(w.charged, id)[k] <= At(Of(s.total, id), k) {
      assert Charged(w, k) <= At(s.total, k);
    }
    SumLe(Of(w.charged, id), Of(s.total, id));
  }
}
