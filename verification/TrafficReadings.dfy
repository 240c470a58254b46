/** Which readings of a node's summed counters overcharge: exactly, one by one; the nodes on
    which none does; and the two ways it happens. */
module TrafficReadings {

  import opened Traffic
  import opened TrafficCores
  import opened TrafficRuns
  import opened Wrappers

  // ---------- One reading ----------

  /** After a full reading is on record, no more is charged than was served if and only if
      the reading did not drop or restarts took as much as was on record. */
  lemma ReadingIff(s: Served, w: World, prev: map<Key, int>, node: nat, e: Entry, now: int)
    requires var key := Key(node, e.email);
      && Balanced(s, w, key) && Billable(w, key) && OnRecord(w, prev, key) && key in prev
      && e.writeOk && e.reported == Full(s, key) <= MAX_INT64
    ensures var key, w' := Key(node, e.email), EntryStep(w, prev, node, e, now);
      Charged(w', key) <= At(s.total, key) <==> s.credit(key) >= if e.reported < prev[key] then prev[key] else 0
  {
    EntryBalanced(s, w, prev, node, e, BOTH, now, Key(node, e.email));
    EntryRecords(w, prev, node, e, now);
    hide EntryStep, TrafficUser, Charged;
  }

  /** Said of what the node holds: where every byte served and not yet charged still shows
      in a counter, a full reading charges within what was served if and only if it did not
      drop or nothing of the recorded reading is left in a core that did not restart. */
  lemma KeptReadingIff(s: Served, w: World, prev: map<Key, int>, node: nat, e: Entry, now: int)
    requires var key := Key(node, e.email);
      && Balanced(s, w, key) && Covered(s, w, key) && Billable(w, key) && OnRecord(w, prev, key) && key in prev
      && e.writeOk && e.reported == Full(s, key) <= MAX_INT64
      && At(s.total, key) - Charged(w, key) == Full(s, key) - Kept(s, key)
    ensures var key, w' := Key(node, e.email), EntryStep(w, prev, node, e, now);
      Charged(w', key) <= At(s.total, key) <==> e.reported >= prev[key] || Kept(s, key) == 0
  {
    ReadingIff(s, w, prev, node, e, now);
    hide EntryStep, TrafficUser, Charged;
  }

  // ---------- Nodes that never overcharge ----------

  /** Users are served by `cores` only, those always answer, and restart together. */
  ghost predicate Together(hs: seq<Happening>, cores: set<CoreName>) {
    forall i :: 0 <= i < |hs| ==>
      match hs[i]
      case Serve(_, core, _) => core in cores
      case Restart(_, down) => down * cores == {} || cores <= down
      case Contact(_, answered) => cores <= answered
  }

  /** What is held is the whole recorded reading, or nothing. */
  ghost predicate Whole(s: Served, w: World, cores: set<CoreName>, k: Key) {
    && (Xray !in cores ==> s.counter(Slot(k, Xray)) == s.held(Slot(k, Xray)) == 0)
    && (Singbox !in cores ==> s.counter(Slot(k, Singbox)) == s.held(Slot(k, Singbox)) == 0)
    && (k in w.st.snaps && Billable(w, k) ==> Kept(s, k) == w.st.snaps[k] || Kept(s, k) == 0)
  }

  ghost predicate AllWhole(s: Served, w: World, cores: set<CoreName>) {
    forall k :: Whole(s, w, cores, k)
  }

  lemma WholeIsSound(s: Served, w: World, cores: set<CoreName>, answered: set<CoreName>, k: Key, e: Entry)
    requires Balanced(s, w, k) && Covered(s, w, k) && Whole(s, w, cores, k) && cores <= answered
    requires e.reported == Reading(s, k, answered)
    ensures SoundEntry(s, w, k, e)
  {
    hide TrafficUser, Charged;
  }

  lemma EntryWhole(s: Served, w: World, prev: map<Key, int>, node: nat, e: Entry, cores: set<CoreName>, answered: set<CoreName>, now: int, k: Key)
    requires Balanced(s, w, k) && Whole(s, w, cores, k) && OnRecord(w, prev, Key(node, e.email)) && cores <= answered
    requires e.reported == Reading(s, Key(node, e.email), answered) && 0 <= e.reported <= MAX_INT64
    ensures Whole(Settle(s, prev, node, e, answered), EntryStep(w, prev, node, e, now), cores, k)
  {
    EntryUsers(w, prev, node, e, now);
    if k != Key(node, e.email) {
      EntryElsewhere(w, prev, node, e, now, k);
    } else if !e.writeOk {
      EntryFails(w, prev, node, e, now);
    } else if k !in prev {
      EntryFirst(w, prev, node, e, now);
    } else {
      EntryRecords(w, prev, node, e, now);
    }
    hide EntryStep, TrafficUser, Charged;
  }

  lemma {:induction false} BeatWhole(s: Served, w: World, b: Beat, cores: set<CoreName>, answered: set<CoreName>, n: nat)
    requires Truthful(s, b, answered) && cores <= answered && n <= |b.entries|
    requires AllCovered(s, w) && AllWhole(s, w, cores)
    ensures AllWhole(SettleAll(s, w.st.snaps, b.node, b.entries[..n], answered),
                     BeatStep(w, w.st.snaps, b.node, b.entries[..n], b.now), cores)
  {
    hide Balanced, Covered, Whole, EntryStep, Settle, OnRecord;
    if n == 0 {
      assert b.entries[..0] == [];
    } else {
      BeatWhole(s, w, b, cores, answered, n - 1);
      BeatBalanced(s, w, b, answered, n - 1);
      BeatAhead(s, w, b, n - 1);
      assert b.entries[..n][..n - 1] == b.entries[..n - 1];
      SettleTouches(s, w.st.snaps, b.node, b.entries[..n - 1], answered);
      var t := SettleAll(s, w.st.snaps, b.node, b.entries[..n - 1], answered);
      var v := BeatStep(w, w.st.snaps, b.node, b.entries[..n - 1], b.now);
      forall k
        ensures Whole(SettleAll(s, w.st.snaps, b.node, b.entries[..n], answered),
                      BeatStep(w, w.st.snaps, b.node, b.entries[..n], b.now), cores, k)
      {
        EntryWhole(t, v, w.st.snaps, b.node, b.entries[n - 1], cores, answered, b.now, k);
      }
    }
  }

  lemma HappeningWhole(s: Served, w: World, h: Happening, cores: set<CoreName>)
    requires AllCovered(s, w) && AllWhole(s, w, cores) && Together([h], cores)
    requires h.Contact? ==> Truthful(s, h.beat, h.answered)
    ensures AllWhole(Live(s, w, h), Billing(w, h), cores)
    ensures h.Contact? ==> Sound(s, w, h.beat)
  {
    assert [h][0] == h;
    match h
    case Serve(key, core, bytes) =>
      hide TrafficUser;
      forall k ensures Whole(Live(s, w, h), Billing(w, h), cores, k) {
        assert Whole(s, w, cores, k);
      }
    case Restart(node, down) =>
      hide TrafficUser;
      forall k ensures Whole(Live(s, w, h), Billing(w, h), cores, k) {
        assert Whole(s, w, cores, k);
        RestartWhole(s, w, node, down, cores, k);
      }
    case Contact(b, answered) =>
      hide Balanced, Covered, Whole;
      assert b.entries[..|b.entries|] == b.entries;
      BeatWhole(s, w, b, cores, answered, |b.entries|);
      forall i | 0 <= i < |b.entries| ensures SoundEntry(s, w, Key(b.node, b.entries[i].email), b.entries[i]) {
        WholeIsSound(s, w, cores, answered, Key(b.node, b.entries[i].email), b.entries[i]);
      }
  }

  lemma RestartWhole(s: Served, w: World, node: nat, down: set<CoreName>, cores: set<CoreName>, k: Key)
    requires Whole(s, w, cores, k) && (down * cores == {} || cores <= down)
    ensures Whole(RestartOn(s, node, down), w, cores, k)
  {
    hide TrafficUser;
    assert Xray in down && Xray in cores ==> Xray in down * cores;
    assert Singbox in down && Singbox in cores ==> Singbox in down * cores;
  }

  lemma {:induction false} TogetherIsSound(s: Served, w: World, hs: seq<Happening>, cores: set<CoreName>)
    requires AllCovered(s, w) && AllWhole(s, w, cores) && Together(hs, cores) && TruthfulRun(s, w, hs)
    ensures SoundRun(s, w, hs)
    decreases |hs|
  {
    hide AllCovered, AllWhole, Live, Billing, Truthful, Sound;
    if hs != [] {
      assert Together([hs[0]], cores) && Together(hs[1..], cores);
      HappeningWhole(s, w, hs[0], cores);
      AllHappeningCovered(s, w, hs[0]);
      TogetherIsSound(Live(s, w, hs[0]), Billing(w, hs[0]), hs[1..], cores);
    }
  }

  /** So a node whose users are all served by one core, or whose cores restart together, and
      whose serving cores always answer, never overcharges, however often they restart. */
  lemma TogetherNeverOvercharges(st: Store, counter: Slot -> int, hs: seq<Happening>, cores: set<CoreName>, id: nat)
    requires st.snaps == map[] && id in st.users && ByteCounts(counter)
    requires forall u :: u in st.users ==> st.users[u].used <= MAX_INT64
    requires forall x: Slot :: x.core !in cores ==> counter(x) == 0
    requires Together(hs, cores) && TruthfulRun(Begin(counter), Start(st), hs)
    ensures var (s, w) := RunServed(Begin(counter), Start(st), hs);
      && id in w.st.users
      && w.st.users[id].used <= Cap(st.users[id].used + Sum(Of(s.total, id)))
      && forall k: Key :: UserOf(k.email) == Some(id) ==> Charged(w, k) <= At(s.total, k)
  {
    hide Sum, RunServed, SoundRun, TruthfulRun, Charged, UserOf, Together;
    assert AllCovered(Begin(counter), Start(st)) by {
      forall k ensures Balanced(Begin(counter), Start(st), k) && Covered(Begin(counter), Start(st), k) {
        BeginHolds(st, counter, k);
      }
    }
    assert AllWhole(Begin(counter), Start(st), cores);
    TogetherIsSound(Begin(counter), Start(st), hs, cores);
    hide Begin;
    ChargesAreServed(st, counter, hs, id);
  }

  // ---------- A query that is not answered ----------

  /** Wherever in a heartbeat a counter is reported, its reading is what is on record after. */
  lemma {:induction false} BeatRecords(s: Served, w: World, b: Beat, answered: set<CoreName>, n: nat, i: nat)
    requires Truthful(s, b, answered) && (forall k :: Balanced(s, w, k)) && i < n <= |b.entries| && b.entries[i].writeOk
    requires Key(b.node, b.entries[i].email) in w.st.snaps && Billable(w, Key(b.node, b.entries[i].email))
    ensures var k, r := Key(b.node, b.entries[i].email), b.entries[i].reported;
      var t := SettleAll(s, w.st.snaps, b.node, b.entries[..n], answered);
      var v := BeatStep(w, w.st.snaps, b.node, b.entries[..n], b.now);
      && k in v.st.snaps && v.st.snaps[k] == r
      && t.credit(k) == s.credit(k) - if r < w.st.snaps[k] then w.st.snaps[k] else 0
  {
    hide EntryStep, Balanced, TrafficUser;
    var k, m := Key(b.node, b.entries[i].email), n - 1;
    var v := BeatStep(w, w.st.snaps, b.node, b.entries[..m], b.now);
    assert b.entries[..n][..m] == b.entries[..m];
    if i == m {
      BeatAhead(s, w, b, m);
      assert OnRecord(v, w.st.snaps, k);
      SettleTouches(s, w.st.snaps, b.node, b.entries[..m], answered);
      BeatUsers(w, w.st.snaps, b.node, b.entries[..m], b.now);
      EntryRecords(v, w.st.snaps, b.node, b.entries[m], b.now);
    } else {
      BeatRecords(s, w, b, answered, m, i);
      EntryElsewhere(v, w.st.snaps, b.node, b.entries[m], b.now, k);
    }
  }

  ghost predicate NoContact(hs: seq<Happening>) {
    forall i :: 0 <= i < |hs| ==> !hs[i].Contact?
  }

  ghost predicate ServesOnly(hs: seq<Happening>) {
    forall i :: 0 <= i < |hs| ==> hs[i].Serve?
  }

  /** What restarts take from one counter between two heartbeats. */
  function Taken(s: Served, w: World, hs: seq<Happening>, k: Key): int
    decreases |hs|
  {
    if hs == [] then 0
    else
      (if hs[0].Restart? && hs[0].node == k.node then Reading(s, k, hs[0].cores) else 0)
      + Taken(Live(s, w, hs[0]), Billing(w, hs[0]), hs[1..], k)
  }

  /** What a reading is charged in full again: the recorded one, when it is below that. */
  function Drop(recorded: int, reported: int): int {
    if reported < recorded then recorded else 0
  }

  lemma {:induction false} BetweenKeeps(s: Served, w: World, hs: seq<Happening>, k: Key)
    requires NoContact(hs) && forall x :: Balanced(s, w, x)
    ensures var (s', w') := RunServed(s, w, hs);
      w' == w && s'.credit(k) == s.credit(k) + Taken(s, w, hs, k) && forall x :: Balanced(s', w', x)
    decreases |hs|
  {
    hide Balanced;
    if hs != [] {
      HappeningBalanced(s, w, hs[0]);
      assert !hs[0].Contact? && Billing(w, hs[0]) == w;
      BetweenKeeps(Live(s, w, hs[0]), w, hs[1..], k);
    }
  }

  lemma {:induction false} ServesKeep(s: Served, w: World, hs: seq<Happening>, k: Key, cores: set<CoreName>)
    requires ServesOnly(hs)
    ensures Taken(s, w, hs, k) == 0 && Reading(s, k, cores) <= Reading(RunServed(s, w, hs).0, k, cores)
    decreases |hs|
  {
    if hs != [] {
      assert hs[0].Serve? && Billing(w, hs[0]) == w;
      ServesKeep(Live(s, w, hs[0]), w, hs[1..], k, cores);
    }
  }

  /** A counter reported in full ends within what was served if and only if restarts took
      what its drop charges again. */
  lemma FullContactIff(s: Served, w: World, b: Beat, i: nat)
    requires Truthful(s, b, BOTH) && b.readOk && (forall k :: Balanced(s, w, k)) && i < |b.entries| && b.entries[i].writeOk
    requires var k := Key(b.node, b.entries[i].email); k in w.st.snaps && Billable(w, k)
    ensures var k, h := Key(b.node, b.entries[i].email), Contact(b, BOTH);
      Charged(Billing(w, h), k) <= At(Live(s, w, h).total, k) <==> s.credit(k) >= Drop(w.st.snaps[k], b.entries[i].reported)
  {
    hide EntryStep, TrafficUser, Charged, Settle;
    var k, h := Key(b.node, b.entries[i].email), Contact(b, BOTH);
    assert b.entries[..|b.entries|] == b.entries;
    BeatRecords(s, w, b, BOTH, |b.entries|, i);
    HappeningBalanced(s, w, h);
    assert Balanced(Live(s, w, h), Billing(w, h), k);
    SettleTouches(s, w.st.snaps, b.node, b.entries, BOTH);
    BeatUsers(w, w.st.snaps, b.node, b.entries, b.now);
    BeatBases(s, w, b, k);
  }

  lemma BeatBases(s: Served, w: World, b: Beat, k: Key)
    requires Readable(b) && (forall x :: Balanced(s, w, x)) && k in w.st.snaps
    ensures k in BeatStep(w, w.st.snaps, b.node, b.entries, b.now).base
  {
    assert Balanced(s, w, k);
    BasesStay(w, w.st.snaps, b.node, b.entries, b.now, k);
  }

  lemma {:induction false} BasesStay(w: World, prev: map<Key, int>, node: nat, entries: seq<Entry>, now: int, k: Key)
    requires k in w.base
    ensures k in BeatStep(w, prev, node, entries, now).base
    decreases |entries|
  {
    if entries != [] {
      BasesStay(w, prev, node, entries[..|entries| - 1], now, k);
    }
  }

  /** Two heartbeats of one counter, the second with every core answering; users are served
      and cores restart in between. */
  ghost predicate Again(s: Served, w: World, b: Beat, answered: set<CoreName>, i: nat, between: seq<Happening>, again: Beat, j: nat) {
    var (s1, w1) := (Live(s, w, Contact(b, answered)), Billing(w, Contact(b, answered)));
    && Truthful(s, b, answered) && b.readOk && i < |b.entries| && b.entries[i].writeOk
    && Key(b.node, b.entries[i].email) in w.st.snaps && Billable(w, Key(b.node, b.entries[i].email))
    && NoContact(between)
    && Truthful(RunServed(s1, w1, between).0, again, BOTH) && again.readOk && j < |again.entries| && again.entries[j].writeOk
    && again.node == b.node && again.entries[j].email == b.entries[i].email
  }

  /** A heartbeat for which some core did not answer is harmless for a user, once everything
      is read again, if and only if what restarts took before and since covers what the two
      readings charge again. */
  lemma UnansweredIff(s: Served, w: World, b: Beat, answered: set<CoreName>, i: nat, between: seq<Happening>, again: Beat, j: nat)
    requires (forall k :: Balanced(s, w, k)) && Again(s, w, b, answered, i, between, again, j)
    ensures var k, h := Key(b.node, b.entries[i].email), Contact(b, answered);
      var (s3, w3) := RunServed(s, w, [h] + between + [Contact(again, BOTH)]);
      Charged(w3, k) <= At(s3.total, k) <==>
        s.credit(k) + Taken(Live(s, w, h), Billing(w, h), between, k)
          >= Drop(w.st.snaps[k], b.entries[i].reported) + Drop(b.entries[i].reported, again.entries[j].reported)
  {
    var k, h := Key(b.node, b.entries[i].email), Contact(b, answered);
    var s1, w1 := Live(s, w, h), Billing(w, h);
    FirstPart(s, w, b, answered, i);
    HappeningBalanced(s, w, h);
    BetweenKeeps(s1, w1, between, k);
    var (s2, w2) := RunServed(s1, w1, between);
    hide Live, Billing, Balanced, Charged, TrafficUser, Truthful, Taken;
    FullContactIff(s2, w2, again, j);
    RunThree(s, w, h, between, Contact(again, BOTH));
  }

  /** With nothing taken by restarts that is: if and only if the sum it reported was not
      below the one on record. */
  lemma UnansweredAloneIff(s: Served, w: World, b: Beat, answered: set<CoreName>, i: nat, serves: seq<Happening>, again: Beat, j: nat)
    requires (forall k :: Balanced(s, w, k)) && Again(s, w, b, answered, i, serves, again, j)
    requires ServesOnly(serves) && s.credit(Key(b.node, b.entries[i].email)) == 0
    ensures var k := Key(b.node, b.entries[i].email);
      var (s3, w3) := RunServed(s, w, [Contact(b, answered)] + serves + [Contact(again, BOTH)]);
      Charged(w3, k) <= At(s3.total, k) <==> b.entries[i].reported >= w.st.snaps[k]
  {
    var k, h := Key(b.node, b.entries[i].email), Contact(b, answered);
    var s1, w1 := Live(s, w, h), Billing(w, h);
    FirstPart(s, w, b, answered, i);
    HappeningBalanced(s, w, h);
    ServesKeep(s1, w1, serves, k, answered);
    BetweenKeeps(s1, w1, serves, k);
    NoLessInFull(RunServed(s1, w1, serves).0, RunServed(s1, w1, serves).1, k, answered);
    ReportsSum(RunServed(s1, w1, serves).0, again, BOTH, j);
    ReportsSum(s, b, answered, i);
    hide Live, Billing, RunServed, Charged, TrafficUser, Truthful, Taken;
    UnansweredIff(s, w, b, answered, i, serves, again, j);
    assert 0 <= b.entries[i].reported <= again.entries[j].reported;
  }

  lemma ReportsSum(s: Served, b: Beat, answered: set<CoreName>, j: nat)
    requires Truthful(s, b, answered) && j < |b.entries|
    ensures b.entries[j].reported == Reading(s, Key(b.node, b.entries[j].email), answered)
  {
  }

  lemma FirstPart(s: Served, w: World, b: Beat, answered: set<CoreName>, i: nat)
    requires Truthful(s, b, answered) && b.readOk && (forall k :: Balanced(s, w, k)) && i < |b.entries| && b.entries[i].writeOk
    requires var k := Key(b.node, b.entries[i].email); k in w.st.snaps && Billable(w, k)
    ensures var k, r := Key(b.node, b.entries[i].email), b.entries[i].reported;
      var s1, w1 := Live(s, w, Contact(b, answered)), Billing(w, Contact(b, answered));
      && k in w1.st.snaps && Billable(w1, k) && w1.st.snaps[k] == r == Reading(s1, k, answered)
      && s1.credit(k) == s.credit(k) - Drop(w.st.snaps[k], r)
  {
    hide EntryStep, TrafficUser, Settle;
    assert b.entries[..|b.entries|] == b.entries;
    BeatRecords(s, w, b, answered, |b.entries|, i);
    SettleTouches(s, w.st.snaps, b.node, b.entries, answered);
    BeatUsers(w, w.st.snaps, b.node, b.entries, b.now);
  }

  lemma NoLessInFull(s: Served, w: World, k: Key, cores: set<CoreName>)
    requires forall x :: Balanced(s, w, x)
    ensures Reading(s, k, cores) <= Full(s, k)
  {
    assert Balanced(s, w, k);
  }

  lemma {:induction false} RunAppend(s: Served, w: World, hs: seq<Happening>, h: Happening)
    ensures var (s', w') := RunServed(s, w, hs);
      RunServed(s, w, hs + [h]) == (Live(s', w', h), Billing(w', h))
    decreases |hs|
  {
    hide Live, Billing;
    if hs == [] {
      assert [] + [h] == [h];
    } else {
      assert (hs + [h])[1..] == hs[1..] + [h];
      RunAppend(Live(s, w, hs[0]), Billing(w, hs[0]), hs[1..], h);
    }
  }

  lemma RunThree(s: Served, w: World, first: Happening, middle: seq<Happening>, last: Happening)
    ensures var (s2, w2) := RunServed(Live(s, w, first), Billing(w, first), middle);
      RunServed(s, w, [first] + middle + [last]) == (Live(s2, w2, last), Billing(w2, last))
  {
    hide Live, Billing;
    assert ([first] + middle)[1..] == middle;
    RunAppend(s, w, [first] + middle, last);
  }

  // ---------- The two runs that overcharge ----------

  function Report(k: Key, r: int, answered: set<CoreName>, now: int): Happening {
    Contact(Beat(k.node, [Entry(k.email, r, true)], true, now), answered)
  }

  lemma ReportNamed(k: Key, r: int, answered: set<CoreName>, now: int)
    ensures var h := Report(k, r, answered, now); h.Contact? && h.answered == answered
  {
  }

  lemma ReportIs(s: Served, w: World, k: Key, r: int, answered: set<CoreName>, now: int)
    ensures Live(s, w, Report(k, r, answered, now)) == Settle(s, w.st.snaps, k.node, Entry(k.email, r, true), answered)
    ensures Billing(w, Report(k, r, answered, now)) == EntryStep(w, w.st.snaps, k.node, Entry(k.email, r, true), now)
    ensures 0 <= r <= MAX_INT64 && r == Reading(s, k, answered) ==> Truthful(s, Report(k, r, answered, now).beat, answered)
  {
    hide EntryStep, Settle;
    var es := [Entry(k.email, r, true)];
    assert es[..|es| - 1] == [];
    assert SettleAll(s, w.st.snaps, k.node, [], answered) == s;
    assert BeatStep(w, w.st.snaps, k.node, [], now) == w;
  }

  lemma {:induction false} TruthfulAppend(s: Served, w: World, hs: seq<Happening>, h: Happening)
    requires TruthfulRun(s, w, hs)
    requires h.Contact? ==> Truthful(RunServed(s, w, hs).0, h.beat, h.answered)
    ensures TruthfulRun(s, w, hs + [h])
    decreases |hs|
  {
    hide Live, Billing, Truthful;
    if hs == [] {
      assert [] + [h] == [h];
    } else {
      assert (hs + [h])[1..] == hs[1..] + [h];
      TruthfulAppend(Live(s, w, hs[0]), Billing(w, hs[0]), hs[1..], h);
    }
  }

  const SILENT: Slot -> int := (x: Slot) => 0

  /** A user is served `x` bytes by one core and `y` by the other, and the node reports. */
  function FirstContact(k: Key, x: nat, y: nat, now: int): seq<Happening> {
    [Serve(k, Xray, x)] + [Serve(k, Singbox, y)] + [Report(k, x + y, BOTH, now)]
  }

  ghost predicate Contacted(k: Key, x: nat, y: nat, st: Store, s: Served, w: World) {
    && s.counter(Slot(k, Xray)) == x && s.counter(Slot(k, Singbox)) == y && At(s.total, k) == 0
    && k in w.st.snaps && w.st.snaps[k] == x + y && Charged(w, k) == 0 && w.st.users == st.users
  }

  lemma Contacts(st: Store, k: Key, x: nat, y: nat, now: int)
    requires st.snaps == map[] && x + y <= MAX_INT64
    ensures var hs := FirstContact(k, x, y, now);
      var (s, w) := RunServed(Begin(SILENT), Start(st), hs);
      TruthfulRun(Begin(SILENT), Start(st), hs) && Contacted(k, x, y, st, s, w)
  {
    var s0, w := Begin(SILENT), Start(st);
    var a, b, r := Serve(k, Xray, x), Serve(k, Singbox, y), Report(k, x + y, BOTH, now);
    var s1, s2 := Live(s0, w, a), Live(Live(s0, w, a), w, b);
    assert RunServed(s0, w, []) == (s0, w) && [] + [a] == [a];
    RunAppend(s0, w, [], a);
    RunAppend(s0, w, [a], b);
    RunAppend(s0, w, [a] + [b], r);
    ReportIs(s2, w, k, x + y, BOTH, now);
    TruthfulAppend(s0, w, [], a);
    TruthfulAppend(s0, w, [a], b);
    TruthfulAppend(s0, w, [a] + [b], r);
    EntryFirst(w, w.st.snaps, k.node, Entry(k.email, x + y, true), now);
    FirstKeepsUsers(w, k.node, Entry(k.email, x + y, true), now);
    hide EntryStep, RunServed, TruthfulRun;
  }

  lemma FirstKeepsUsers(w: World, node: nat, e: Entry, now: int)
    requires Key(node, e.email) !in w.st.snaps
    ensures EntryStep(w, w.st.snaps, node, e, now).st.users == w.st.users
  {
    hide UserOf;
  }

  /** One core restarts, nothing is served, and the other's whole total is charged again. */
  lemma RestartRecharges(st: Store, k: Key, x: nat, y: nat, now: int)
    requires st.snaps == map[] && 0 < x && 0 < y && x + y <= MAX_INT64 && Billable(Start(st), k)
    ensures var hs := FirstContact(k, x, y, now) + [Restart(k.node, {Xray})] + [Report(k, y, BOTH, now)];
      var (s, w) := RunServed(Begin(SILENT), Start(st), hs);
      TruthfulRun(Begin(SILENT), Start(st), hs) && At(s.total, k) == 0 && Charged(w, k) == y
  {
    var s0, w0, hs := Begin(SILENT), Start(st), FirstContact(k, x, y, now);
    var down, r := Restart(k.node, {Xray}), Report(k, y, BOTH, now);
    Contacts(st, k, x, y, now);
    var (s, w) := RunServed(s0, w0, hs);
    var s' := Live(s, w, down);
    RunAppend(s0, w0, hs, down);
    RunAppend(s0, w0, hs + [down], r);
    ReportIs(s', w, k, y, BOTH, now);
    TruthfulAppend(s0, w0, hs, down);
    TruthfulAppend(s0, w0, hs + [down], r);
    EntryRecords(w, w.st.snaps, k.node, Entry(k.email, y, true), now);
    hide EntryStep, RunServed, TruthfulRun, FirstContact;
  }

  /** One core does not answer once, nothing is served, and both totals are charged again. */
  lemma UnansweredRecharges(st: Store, k: Key, x: nat, y: nat, now: int)
    requires st.snaps == map[] && 0 < x && 0 < y && x + y <= MAX_INT64 && Billable(Start(st), k)
    ensures var hs := FirstContact(k, x, y, now) + [Report(k, x, {Xray}, now)] + [Report(k, x + y, BOTH, now)];
      var (s, w) := RunServed(Begin(SILENT), Start(st), hs);
      TruthfulRun(Begin(SILENT), Start(st), hs) && At(s.total, k) == 0 && Charged(w, k) == x + y
  {
    hide EntryStep, RunServed, TruthfulRun, FirstContact, Truthful, Live, Billing, Report, TrafficUser;
    var s0, w0, hs := Begin(SILENT), Start(st), FirstContact(k, x, y, now);
    var half, full := Report(k, x, {Xray}, now), Report(k, x + y, BOTH, now);
    Contacts(st, k, x, y, now);
    var (s, w) := RunServed(s0, w0, hs);
    ReportNamed(k, x, {Xray}, now);
    ReportNamed(k, x + y, BOTH, now);
    RunAppend(s0, w0, hs, half);
    RunAppend(s0, w0, hs + [half], full);
    var s', w' := Live(s, w, half), Billing(w, half);
    ReportIs(s, w, k, x, {Xray}, now);
    ReportIs(s', w', k, x + y, BOTH, now);
    TruthfulAppend(s0, w0, hs, half);
    TruthfulAppend(s0, w0, hs + [half], full);
    EntryRecords(w, w.st.snaps, k.node, Entry(k.email, x, true), now);
    EntryUsers(w, w.st.snaps, k.node, Entry(k.email, x, true), now);
    EntryRecords(w', w'.st.snaps, k.node, Entry(k.email, x + y, true), now);
  }
}
