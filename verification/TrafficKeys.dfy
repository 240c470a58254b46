/** Which user a counter belongs to.  Counters are named by the encoder, "u" and the decimal
    id; the accounting decodes.  What a heartbeat charges, and a whole schedule, said of
    the names the encoder gives. */
module TrafficKeys {

  import opened Texts
  import opened Traffic
  import opened TrafficRuns
  import opened Wrappers

  // ---------- Encoder and decoder ----------

  /** The stats tag of a user. */
  function CounterKey(id: nat): string {
    "u" + Itoa(id)
  }

  /** A key spells an id: the encoder's key, or it with zeros before the digits. */
  ghost predicate Spells(key: string, id: nat) {
    exists k: nat :: key == "u" + (Zeros(k) + Itoa(id))
  }

  /** The decoder names a user if and only if the key spells its id, which is positive and
      fits 64 bits; whatever else a core reports belongs to nobody. */
  lemma UserOfIff(key: string, id: nat)
    ensures UserOf(key) == Some(id) <==> 0 < id < 0x1_0000_0000_0000_0000 && Spells(key, id)
  {
    if UserOf(key) == Some(id) {
      NumeralIff(key[1..], id);
      assert key == "u" + key[1..];
    }
    if 0 < id < 0x1_0000_0000_0000_0000 && Spells(key, id) {
      var k: nat :| key == "u" + (Zeros(k) + Itoa(id));
      assert key[1..] == Zeros(k) + Itoa(id);
      NumeralIff(key[1..], id);
    }
  }

  /** The decoder inverts the encoder. */
  lemma DecodesKey(id: nat)
    requires 0 < id < 0x1_0000_0000_0000_0000
    ensures UserOf(CounterKey(id)) == Some(id)
  {
    assert Zeros(0) + Itoa(id) == Itoa(id);
    assert Spells(CounterKey(id), id);
    UserOfIff(CounterKey(id), id);
  }

  // ---------- One counter of one heartbeat ----------

  /** What an observation leaves of a user that `used` is charged to. */
  ghost predicate Observed(u: User, u': User, used: int, now: int) {
    && u'.used == used && u'.limit == u.limit && u'.lastSeen == Some(now)
    && u'.firstConnect == (if u.status == OnHold && u.firstConnect == None then Some(now) else u.firstConnect)
    && u'.status == (if u.status == Active && 0 < u.limit <= used then Limited else u.status)
  }

  lemma OneEntry(st: Store, node: nat, e: Entry, now: int)
    ensures Account(st, node, [e], true, true, now) == AccountTotal(st, st.snaps, node, e, now)
    ensures Account(st, node, [e], false, true, now) == AccountDelta(st, e, now)
  {
    assert [e][..0] == [];
    assert AccountAll(st, st.snaps, node, [], true, now) == st == AccountAll(st, st.snaps, node, [], false, now);
  }

  /** A user's counter that grew from `was` to `total` charges exactly that user exactly the
      growth, up to the largest value; a reading below `was` is charged in full. */
  lemma HeartbeatCharges(st: Store, node: nat, id: nat, was: int, total: int, now: int)
    requires 0 < id < 0x1_0000_0000_0000_0000 && id in st.users
    requires 0 <= was <= 9223372036854775807 && 0 <= total <= 9223372036854775807
    requires Key(node, CounterKey(id)) in st.snaps && st.snaps[Key(node, CounterKey(id))] == was
    ensures var st' := Account(st, node, [Entry(CounterKey(id), total, true)], true, true, now);
      var d := if total < was then total else total - was;
      var sum := st.users[id].used + d;
      && st'.snaps == st.snaps[Key(node, CounterKey(id)) := total]
      && st'.users.Keys == st.users.Keys
      && (forall u :: u in st.users && u != id ==> st'.users[u] == st.users[u])
      && (if d == 0 then st'.users[id] == st.users[id]
          else Observed(st.users[id], st'.users[id], if sum > 9223372036854775807 then 9223372036854775807 else sum, now))
  {
    DecodesKey(id);
    OneEntry(st, node, Entry(CounterKey(id), total, true), now);
    hide UserOf, CounterKey;
  }

  /** First contact records the reading and charges nobody. */
  lemma FirstContactCharges(st: Store, node: nat, key: string, total: int, now: int)
    requires Key(node, key) !in st.snaps
    ensures Account(st, node, [Entry(key, total, true)], true, true, now) == st.(snaps := st.snaps[Key(node, key) := total])
  {
    OneEntry(st, node, Entry(key, total, true), now);
    hide UserOf;
  }

  /** A key that spells no id is remembered and charges nobody, in either protocol. */
  lemma StrangerCharges(st: Store, node: nat, key: string, total: int, now: int)
    requires forall id: nat :: !Spells(key, id)
    ensures Account(st, node, [Entry(key, total, true)], true, true, now) == st.(snaps := st.snaps[Key(node, key) := total])
    ensures Account(st, node, [Entry(key, total, true)], false, true, now) == st
  {
    if UserOf(key).Some? {
      UserOfIff(key, UserOf(key).value);
    }
    OneEntry(st, node, Entry(key, total, true), now);
    hide UserOf;
  }

  /** The older protocol charges the delta itself. */
  lemma DeltaCharges(st: Store, node: nat, id: nat, delta: int, now: int)
    requires 0 < id < 0x1_0000_0000_0000_0000 && id in st.users && 0 < delta <= 9223372036854775807
    ensures var st' := Account(st, node, [Entry(CounterKey(id), delta, true)], false, true, now);
      var sum := st.users[id].used + delta;
      && st'.snaps == st.snaps && st'.users.Keys == st.users.Keys
      && (forall u :: u in st.users && u != id ==> st'.users[u] == st.users[u])
      && Observed(st.users[id], st'.users[id], if sum > 9223372036854775807 then 9223372036854775807 else sum, now)
  {
    DecodesKey(id);
    OneEntry(st, node, Entry(CounterKey(id), delta, true), now);
    hide UserOf, CounterKey;
  }

  // ---------- A whole schedule ----------

  /** How far each counter that spells an id is past its first reading. */
  ghost function GrowthOf(w: World, id: nat): map<Key, int>
    requires w.base.Keys == w.st.snaps.Keys
  {
    map k | k in w.st.snaps && Spells(k.email, id) :: w.st.snaps[k] - w.base[k]
  }

  lemma GrowthIsOfKey(w: World, id: nat)
    requires w.base.Keys == w.st.snaps.Keys && 0 < id < 0x1_0000_0000_0000_0000
    ensures GrowthOf(w, id) == Growth(w, id)
  {
    forall k | k in w.st.snaps ensures Spells(k.email, id) <==> UserOf(k.email) == Some(id) {
      UserOfIff(k.email, id);
    }
    hide UserOf, Spells;
  }

  /** Conservation by name: over any schedule in which counters only grow, a user has been
      charged the growth of the counters, on whatever node, whose key spells its id. */
  lemma ChargedByName(st: Store, beats: seq<Beat>, id: nat)
    requires id in st.users && 0 < id < 0x1_0000_0000_0000_0000
    requires forall u :: u in st.users ==> st.users[u].used <= MAX_INT64
    requires forall k :: k in st.snaps ==> 0 <= st.snaps[k]
    requires GrowingRun(Start(st), beats)
    ensures var w := Run(Start(st), beats);
      && w.base.Keys == w.st.snaps.Keys && id in w.st.users
      && w.st.users[id].used == Cap(st.users[id].used + Sum(GrowthOf(w, id)))
  {
    hide *;
    ChargesAreGrowth(st, beats, id);
    GrowthIsOfKey(Run(Start(st), beats), id);
  }

  // ---------- When the cores are reloaded ----------

  ghost predicate WentOver(st: Store, st': Store, id: nat) {
    id in st.users && id in st'.users && st.users[id].status == Active && st'.users[id].status == Limited
  }

  /** One entry asks for a reload if and only if it takes an active user to its limit. */
  lemma EntryTripsIff(st: Store, prev: map<Key, int>, node: nat, e: Entry, cumulative: bool, now: int)
    requires cumulative || e.writeOk
    ensures var st' := if cumulative then AccountTotal(st, prev, node, e, now) else AccountDelta(st, e, now);
      && st'.users.Keys == st.users.Keys
      && (EntryTrips(st, prev, node, e, cumulative) <==> exists id :: WentOver(st, st', id))
      && (forall id :: id in st.users && st.users[id].status != Active ==> st'.users[id].status == st.users[id].status)
      && (forall id :: id in st.users && st'.users[id].status != st.users[id].status ==> WentOver(st, st', id))
  {
    var st' := if cumulative then AccountTotal(st, prev, node, e, now) else AccountDelta(st, e, now);
    hide UserOf;
    if EntryTrips(st, prev, node, e, cumulative) {
      assert WentOver(st, st', UserOf(e.email).value);
    }
  }

  /** A heartbeat asks for the cores to be reloaded if and only if it takes some active user
      to its limit.  (In the older protocol, when its writes work.) */
  lemma {:induction false} ReloadIff(st: Store, prev: map<Key, int>, node: nat, entries: seq<Entry>, cumulative: bool, now: int)
    requires cumulative || forall i :: 0 <= i < |entries| ==> entries[i].writeOk
    ensures var st' := AccountAll(st, prev, node, entries, cumulative, now);
      && st'.users.Keys == st.users.Keys
      && (AnyTrips(st, prev, node, entries, cumulative, now) <==> exists id :: WentOver(st, st', id))
      && (forall id :: id in st.users && st'.users[id].status != st.users[id].status ==> WentOver(st, st', id))
    decreases |entries|
  {
    hide AccountTotal, AccountDelta, EntryTrips;
    if entries != [] {
      var n := |entries| - 1;
      var mid := AccountAll(st, prev, node, entries[..n], cumulative, now);
      var st' := AccountAll(st, prev, node, entries, cumulative, now);
      ReloadIff(st, prev, node, entries[..n], cumulative, now);
      EntryTripsIff(mid, prev, node, entries[n], cumulative, now);
      if id :| WentOver(st, mid, id) {
        assert WentOver(st, st', id);
      }
      if id :| WentOver(mid, st', id) {
        assert WentOver(st, st', id);
      }
      if id :| WentOver(st, st', id) {
        assert WentOver(st, mid, id) || WentOver(mid, st', id);
      }
    }
  }
}
