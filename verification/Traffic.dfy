/** Charging users for what remote nodes served.  A node reports running totals; the
    panel charges the growth since the last total it recorded for that node and user.
    Heartbeats are lost and repeated, cores restart, store reads and writes fail. */
module Traffic {

  import opened Texts
  import opened Wrappers

  const MAX_INT64: int := 0x7FFF_FFFF_FFFF_FFFF

  datatype Status = Active | OnHold | Limited | Expired | Disabled

  datatype User = User(used: int, limit: int, status: Status, firstConnect: Option<int>, lastSeen: Option<int>)

  /** One counter of one node: the snapshot scope and the stats email. */
  datatype Key = Key(node: nat, email: string)

  /** The tables accounting reads and writes. */
  datatype Store = Store(users: map<nat, User>, snaps: map<Key, int>)

  /** One entry of a heartbeat, with the outcome of the store write it leads to. */
  datatype Entry = Entry(email: string, reported: int, writeOk: bool)

  /** Two's complement, 64 bits. */
  function Wrap64(x: int): (r: int)
    ensures -MAX_INT64 - 1 <= r <= MAX_INT64
    ensures -MAX_INT64 - 1 <= x <= MAX_INT64 ==> r == x
  {
    (x + MAX_INT64 + 1) % (2 * (MAX_INT64 + 1)) - MAX_INT64 - 1
  }

  /** The growth of a counter; a reading below the last one means it restarted. */
  function TrafficDelta(previous: int, current: int): int {
    if current < previous then current else Wrap64(current - previous)
  }

  /** Addition that stops at the largest int64 instead of wrapping. */
  function SatAdd(used: int, delta: int): (r: int)
    requires 0 < delta
    ensures used <= MAX_INT64 ==> used <= r <= MAX_INT64
    ensures r == MAX_INT64 || r == used + delta
  {
    if MAX_INT64 - delta < used then MAX_INT64 else used + delta
  }

  /** What one observation does to a user besides its usage. */
  function Stamp(u: User, now: int): User {
    var seen := u.(lastSeen := Some(now));
    var held := if seen.status.OnHold? && seen.firstConnect.None? then seen.(firstConnect := Some(now)) else seen;
    if held.limit > 0 && held.used >= held.limit && held.status.Active? then held.(status := Limited) else held
  }

  function Charge(u: User, delta: int, now: int): User {
    Stamp(if delta > 0 then u.(used := SatAdd(u.used, delta)) else u, now)
  }

  /** "u<id>": the decimal id of a user, or nothing.  Leading zeros parse. */
  function UserOf(email: string): Option<nat> {
    if |email| < 2 || email[0] != 'u' then None
    else match ParseNat(email[1..])
      case Some(n) => if n == 0 || n > 2 * MAX_INT64 + 1 then None else Some(n)
      case None => None
  }

  // ---------- One entry ----------

  /** A running total.  `prev` is what the snapshot table held when the heartbeat began. */
  function AccountTotal(st: Store, prev: map<Key, int>, node: nat, e: Entry, now: int): Store {
    var key := Key(node, e.email);
    var moved := if e.writeOk then st.(snaps := st.snaps[key := e.reported]) else st;
    if key !in prev then
      moved
    else
      var delta := TrafficDelta(prev[key], e.reported);
      match UserOf(e.email)
      case None => moved
      case Some(id) =>
        if delta <= 0 then
          if e.reported != prev[key] then moved else st
        else if e.writeOk && id in st.users then
          moved.(users := st.users[id := Charge(st.users[id], delta, now)])
        else
          st
  }

  /** A delta, from an agent that still resets its counters. */
  function AccountDelta(st: Store, e: Entry, now: int): Store {
    match UserOf(e.email)
    case None => st
    case Some(id) =>
      if e.reported <= 0 || id !in st.users || !e.writeOk then st
      else st.(users := st.users[id := Charge(st.users[id], e.reported, now)])
  }

  function AccountAll(st: Store, prev: map<Key, int>, node: nat, entries: seq<Entry>, cumulative: bool, now: int): Store
    decreases |entries|
  {
    if entries == [] then st
    else
      var rest := AccountAll(st, prev, node, entries[..|entries| - 1], cumulative, now);
      var e := entries[|entries| - 1];
      if cumulative then AccountTotal(rest, prev, node, e, now) else AccountDelta(rest, e, now)
  }

  /** One heartbeat: nothing at all when the snapshots cannot be read. */
  function Account(st: Store, node: nat, entries: seq<Entry>, cumulative: bool, readOk: bool, now: int): Store {
    if entries == [] || (cumulative && !readOk) then st
    else AccountAll(st, st.snaps, node, entries, cumulative, now)
  }

  /** Whether charging this entry takes its user over the limit. */
  predicate Trips(u: User, delta: int)
    requires 0 < delta
  {
    u.limit > 0 && SatAdd(u.used, delta) >= u.limit && u.status.Active?
  }

  /** The bytes one running total charges, and to whom: nothing on first contact, for
      an unknown user, or when the write fails. */
  function EntryCharge(st: Store, prev: map<Key, int>, node: nat, e: Entry): (delta: int)
    ensures 0 <= delta
  {
    var key := Key(node, e.email);
    if key in prev && UserOf(e.email).Some? && UserOf(e.email).value in st.users && e.writeOk
       && TrafficDelta(prev[key], e.reported) > 0
    then TrafficDelta(prev[key], e.reported) else 0
  }

  /** Whether an entry puts its user over the limit.  The delta path does not look at
      whether saving the user worked. */
  predicate EntryTrips(st: Store, prev: map<Key, int>, node: nat, e: Entry, cumulative: bool) {
    if cumulative then
      EntryCharge(st, prev, node, e) > 0 && Trips(st.users[UserOf(e.email).value], EntryCharge(st, prev, node, e))
    else
      && UserOf(e.email).Some? && UserOf(e.email).value in st.users && e.reported > 0
      && Trips(st.users[UserOf(e.email).value], e.reported)
  }

  predicate AnyTrips(st: Store, prev: map<Key, int>, node: nat, entries: seq<Entry>, cumulative: bool, now: int)
    decreases |entries|
  {
    entries != [] &&
    var n := |entries| - 1;
    || AnyTrips(st, prev, node, entries[..n], cumulative, now)
    || EntryTrips(AccountAll(st, prev, node, entries[..n], cumulative, now), prev, node, entries[n], cumulative)
  }

  /** The panel's side, over its tables in place. */
  class Panel {
    var users: map<nat, User>
    var snaps: map<Key, int>

    function Tables(): Store
      reads this
    {
      Store(users, snaps)
    }

    constructor (users: map<nat, User>, snaps: map<Key, int>)
      ensures Tables() == Store(users, snaps)
    {
      this.users, this.snaps := users, snaps;
    }

    /** Usage and snapshot move together or not at all. */
    method ApplyTrafficDelta(key: Key, id: nat, delta: int, total: int, ok: bool, now: int) returns (failed: bool)
      modifies this
      ensures failed <==> !ok || id !in old(users)
      ensures failed ==> Tables() == old(Tables())
      ensures !failed ==>
        Tables() == Store(old(users)[id := Charge(old(users)[id], delta, now)], old(snaps)[key := total])
    {
      if !ok || id !in users {
        return true;
      }
      users, snaps := users[id := Charge(users[id], delta, now)], snaps[key := total];
      return false;
    }

    method SetTrafficSnapshot(key: Key, total: int, ok: bool)
      modifies this
      ensures Tables() == if ok then Store(old(users), old(snaps)[key := total]) else old(Tables())
    {
      if ok {
        snaps := snaps[key := total];
      }
    }

    method AccountEntry(prev: map<Key, int>, node: nat, e: Entry, cumulative: bool, now: int) returns (tripped: bool)
      modifies this
      ensures Tables() == if cumulative then AccountTotal(old(Tables()), prev, node, e, now)
                          else AccountDelta(old(Tables()), e, now)
      ensures tripped <==> EntryTrips(old(Tables()), prev, node, e, cumulative)
    {
      var key, delta := Key(node, e.email), e.reported;
      if cumulative {
        if key !in prev {
          SetTrafficSnapshot(key, e.reported, e.writeOk);
          return false;
        }
        delta := TrafficDelta(prev[key], e.reported);
      }
      var owner := UserOf(e.email);
      if owner.None? {
        if cumulative {
          SetTrafficSnapshot(key, e.reported, e.writeOk);
        }
        return false;
      }
      if delta <= 0 {
        if cumulative && e.reported != prev[key] {
          SetTrafficSnapshot(key, e.reported, e.writeOk);
        }
        return false;
      }
      var id := owner.value;
      tripped := id in users && Trips(users[id], delta);
      if cumulative {
        var failed := ApplyTrafficDelta(key, id, delta, e.reported, e.writeOk, now);
        if failed {
          return false;
        }
      } else {
        if id !in users {
          return false;
        }
        if e.writeOk {
          users := users[id := Charge(users[id], delta, now)];
        }
      }
    }

    /** One heartbeat; the result says whether the cores must be reloaded. */
    method AccountNodeTraffic(node: nat, entries: seq<Entry>, cumulative: bool, readOk: bool, now: int) returns (changed: bool)
      modifies this
      ensures Tables() == Account(old(Tables()), node, entries, cumulative, readOk, now)
      ensures changed <==> (!cumulative || readOk) && AnyTrips(old(Tables()), old(snaps), node, entries, cumulative, now)
    {
      changed := false;
      if |entries| == 0 || (cumulative && !readOk) {
        return;
      }
      var prev := snaps;
      for i := 0 to |entries|
        invariant Tables() == AccountAll(old(Tables()), prev, node, entries[..i], cumulative, now)
        invariant changed <==> AnyTrips(old(Tables()), prev, node, entries[..i], cumulative, now)
      {
        assert entries[..i + 1][..i] == entries[..i];
        var tripped := AccountEntry(prev, node, entries[i], cumulative, now);
        if tripped {
          changed := true;
        }
      }
      assert entries[..|entries|] == entries;
    }
  }
}
