/** The login limiter: a bounded table of failure counters, swept and evicted in passing,
    and the guard that drives it with one key per address and one per username. */
module LoginLimiters {

  /** Nanoseconds since the zero time. */
  type Time = nat

  const SECOND: nat := 1_000_000_000
  const SWEEP_EVERY: nat := 60 * SECOND
  const USERNAME_LOCKOUT: nat := 60 * SECOND
  const USERNAME_FAIL_BUDGET := 50
  const FREE_FAILURES: nat := 4
  const LONGEST_LOCKOUT: nat := 320 * SECOND

  datatype Entry = Entry(fails: nat, lockedTill: Time, lastSeen: Time)
  datatype Limits = Limits(maxEntries: int, entryTTL: nat)

  type Table = map<string, Entry>

  datatype State = State(entries: Table, lastSweep: Time)

  // ---------- Keys ----------

  const USER_PREFIX := "user\0"

  predicate IsUserKey(key: string) {
    USER_PREFIX <= key
  }

  function UsernameKey(name: string): (key: string)
    ensures IsUserKey(key)
  {
    USER_PREFIX + name
  }

  function BeforeColon(s: string): (r: string)
    ensures r <= s && ':' !in r && (|r| < |s| ==> s[|r|] == ':')
  {
    if s == [] || s[0] == ':' then [] else [s[0]] + BeforeColon(s[1..])
  }

  function TrimBrackets(s: string): (r: string)
    ensures r <= s && (r != [] ==> r[|r| - 1] !in "[]")
    ensures forall i :: |r| <= i < |s| ==> s[i] in "[]"
  {
    if s != [] && s[|s| - 1] in "[]" then TrimBrackets(s[..|s| - 1]) else s
  }

  /** The address clean-up as it acts on a username's key, which never parses as an
      address: a single colon is taken for a port separator, unless there are brackets,
      and closing brackets are dropped.  Addresses are taken as already clean. */
  function Normalized(key: string): string {
    if !IsUserKey(key) then key
    else
      var host := BeforeColon(key);
      if '[' !in key && ']' !in key && |host| < |key| && ':' !in key[|host| + 1..] then host
      else TrimBrackets(key)
  }

  /** A username whose key the address clean-up leaves alone. */
  predicate Plain(name: string) {
    && (name != "" ==> name[|name| - 1] !in "[]")
    && ('[' in name || ']' in name || |BeforeColon(name)| == |name| || ':' in name[|BeforeColon(name)| + 1..])
  }

  lemma {:induction false} BeforeColonSkips(a: string, b: string)
    requires ':' !in a
    ensures BeforeColon(a + b) == a + BeforeColon(b)
  {
    if a == [] {
      assert a + b == b;
    } else {
      assert (a + b)[1..] == a[1..] + b;
      BeforeColonSkips(a[1..], b);
    }
  }

  /** Which usernames the clean-up respects. */
  lemma NormalizedIff(name: string)
    ensures Normalized(UsernameKey(name)) == UsernameKey(name) <==> Plain(name)
  {
    hide BeforeColon;
    var key := UsernameKey(name);
    var host := BeforeColon(name);
    BeforeColonSkips(USER_PREFIX, name);
    assert key[|key| - 1] == if name == "" then '\0' else name[|name| - 1];
    assert '[' in key <==> '[' in name by { InConcat('[', name); }
    assert ']' in key <==> ']' in name by { InConcat(']', name); }
    if |host| < |name| {
      assert key[|USER_PREFIX + host| + 1..] == name[|host| + 1..];
    }
  }

  lemma InConcat(c: char, name: string)
    requires c !in USER_PREFIX
    ensures c in UsernameKey(name) <==> c in name
  {
    if c in name {
      var i :| 0 <= i < |name| && name[i] == c;
      assert UsernameKey(name)[|USER_PREFIX| + i] == c;
    }
  }

  // ---------- The table ----------

  predicate Expired(e: Entry, now: Time, ttl: nat) {
    e.lockedTill < now && now - e.lastSeen >= ttl
  }

  function Swept(t: Table, now: Time, ttl: nat): Table {
    map k | k in t && !Expired(t[k], now, ttl) :: t[k]
  }

  predicate SweepDue(lastSweep: Time, now: Time) {
    lastSweep == 0 || now - lastSweep >= SWEEP_EVERY
  }

  function MaybeSwept(l: Limits, s: State, now: Time): State {
    if SweepDue(s.lastSweep, now) then State(Swept(s.entries, now, l.entryTTL), now) else s
  }

  ghost predicate IsOldest(t: Table, k: string) {
    k in t && forall o :: o in t ==> t[k].lastSeen <= t[o].lastSeen
  }

  lemma {:induction false} OldestExists(t: Table)
    requires t != map[]
    ensures exists k :: IsOldest(t, k)
    decreases |t|
  {
    var k :| k in t;
    var rest := t - {k};
    if rest == map[] {
      assert forall o :: o in t ==> o == k || o in rest;
      assert IsOldest(t, k);
    } else {
      assert |rest| < |t| by {
        assert rest.Keys == t.Keys - {k};
      }
      OldestExists(rest);
      var o :| IsOldest(rest, o);
      assert forall x :: x in t ==> x == k || x in rest;
      assert IsOldest(t, if t[k].lastSeen <= t[o].lastSeen then k else o);
    }
  }

  /** The least recently seen key.  A tie is broken by the map's iteration order, so any
      oldest key may be `hint`. */
  ghost function Victim(t: Table, hint: string): (k: string)
    requires t != map[]
    ensures IsOldest(t, k)
    ensures IsOldest(t, hint) ==> k == hint
  {
    OldestExists(t);
    if IsOldest(t, hint) then hint else var k :| IsOldest(t, k); k
  }

  /** Room for one more, if it can be had: sweep, then drop the least recently seen key,
      unless that key is the empty string. */
  ghost function Roomier(l: Limits, t: Table, now: Time, hint: string): Table {
    if |t| < l.maxEntries then t
    else
      var u := Swept(t, now, l.entryTTL);
      if |u| < l.maxEntries || u == map[] then u
      else if Victim(u, hint) != "" then u - {Victim(u, hint)} else u
  }

  /** Twice as long for every failure past the free ones, up to 320 seconds. */
  function Backoff(fails: nat): (d: nat)
    ensures d <= LONGEST_LOCKOUT
    ensures d > 0 <==> fails > FREE_FAILURES
  {
    if fails <= FREE_FAILURES then 0
    else
      var n := if fails - FREE_FAILURES < 6 then fails - FREE_FAILURES else 6;
      [1, 2, 4, 8, 16, 32, 64][n] * 5 * SECOND
  }

  lemma BackoffGrows(a: nat, b: nat)
    requires a <= b
    ensures Backoff(a) <= Backoff(b)
  {
    var step := [1, 2, 4, 8, 16, 32, 64];
    assert forall i, j :: 0 <= i <= j <= 6 ==> step[i] <= step[j];
  }

  function Struck(e: Entry, now: Time): Entry {
    Entry(e.fails + 1, if e.fails + 1 <= FREE_FAILURES then e.lockedTill else now + Backoff(e.fails + 1), now)
  }

  function StruckKey(e: Entry, now: Time): Entry {
    Entry(e.fails + 1, now + USERNAME_LOCKOUT, now)
  }

  datatype Event =
    | Ask(key: string, now: Time)
    | AskKey(key: string, budget: int, now: Time)
    | Strike(key: string, now: Time, hint: string)
    | StrikeKey(key: string, now: Time, hint: string)
    | Clear(key: string, now: Time)

  predicate IsStrike(ev: Event) {
    ev.Strike? || ev.StrikeKey?
  }

  function Charged(ev: Event, e: Entry): Entry
    requires IsStrike(ev)
  {
    if ev.Strike? then Struck(e, ev.now) else StruckKey(e, ev.now)
  }

  function Touched(s: State, key: string, now: Time): State {
    if key in s.entries then s.(entries := s.entries[key := s.entries[key].(lastSeen := now)]) else s
  }

  /** The entry a failure is charged to, and the table it goes back into. */
  ghost function Opened(l: Limits, s: State, key: string, now: Time, hint: string): (Table, Entry) {
    var t := MaybeSwept(l, s, now).entries;
    if key in t then (t, t[key]) else (Roomier(l, t, now, hint), Entry(0, 0, 0))
  }

  ghost function Step(l: Limits, s: State, ev: Event): State {
    match ev
    case Clear(key, now) => s.(entries := s.entries - {Normalized(key)})
    case Ask(key, now) => Touched(MaybeSwept(l, s, now), key, now)
    case AskKey(key, _, now) => Touched(MaybeSwept(l, s, now), key, now)
    case _ =>
      var (t, e) := Opened(l, s, ev.key, ev.now, ev.hint);
      State(t[ev.key := Charged(ev, e)], MaybeSwept(l, s, ev.now).lastSweep)
  }

  /** Whether a question is answered with a refusal. */
  function Refuses(l: Limits, s: State, ev: Event): bool
    requires ev.Ask? || ev.AskKey?
  {
    var t := MaybeSwept(l, s, ev.now).entries;
    ev.key in t && ev.now < t[ev.key].lockedTill && (ev.AskKey? ==> t[ev.key].fails >= ev.budget)
  }

  class LoginLimiter {
    var entries: map<string, Entry>
    var lastSweep: Time
    const limits: Limits

    ghost function View(): State
      reads this
    {
      State(entries, lastSweep)
    }

    constructor (limits: Limits)
      ensures this.limits == limits && View() == State(map[], 0)
    {
      this.limits := limits;
      entries, lastSweep := map[], 0;
    }

    method DropExpired(now: Time)
      modifies this`entries
      ensures entries == Swept(old(entries), now, limits.entryTTL)
    {
      var keys := entries.Keys;
      while keys != {}
        invariant keys <= entries.Keys <= old(entries).Keys
        invariant forall k :: k in old(entries) ==>
          (k in entries <==> k in keys || !Expired(old(entries)[k], now, limits.entryTTL))
        invariant forall k :: k in entries ==> entries[k] == old(entries)[k]
        decreases |keys|
      {
        var k :| k in keys;
        keys := keys - {k};
        if Expired(entries[k], now, limits.entryTTL) {
          entries := entries - {k};
        }
      }
    }

    method MaybeSweep(now: Time)
      modifies this
      ensures View() == MaybeSwept(limits, old(View()), now)
    {
      if !SweepDue(lastSweep, now) {
        return;
      }
      lastSweep := now;
      DropExpired(now);
    }

    /** The scan for the least recently seen key visits the entries in any order. */
    method EvictIfFull(now: Time) returns (ghost hint: string)
      modifies this`entries
      ensures entries == Roomier(limits, old(entries), now, hint)
    {
      hint := "";
      if |entries| < limits.maxEntries {
        return;
      }
      DropExpired(now);
      if |entries| < limits.maxEntries {
        return;
      }
      var oldestKey, oldest, first := "", 0, true;
      var keys := entries.Keys;
      while keys != {}
        invariant keys <= entries.Keys
        invariant first <==> keys == entries.Keys
        invariant first ==> oldestKey == ""
        invariant !first ==> oldestKey in entries && entries[oldestKey].lastSeen == oldest
        invariant !first ==> forall k :: k in entries && k !in keys ==> oldest <= entries[k].lastSeen
        decreases |keys|
      {
        var k :| k in keys;
        keys := keys - {k};
        if first || entries[k].lastSeen < oldest {
          oldestKey, oldest, first := k, entries[k].lastSeen, false;
        }
      }
      hint := oldestKey;
      if entries == map[] {
        assert first;
      } else {
        assert IsOldest(entries, oldestKey);
      }
      if oldestKey != "" {
        entries := entries - {oldestKey};
      }
    }

    method Allowed(ip: string, now: Time) returns (ok: bool)
      modifies this
      ensures View() == Step(limits, old(View()), Ask(ip, now))
      ensures ok <==> !Refuses(limits, old(View()), Ask(ip, now))
    {
      MaybeSweep(now);
      if ip !in entries {
        return true;
      }
      entries := entries[ip := entries[ip].(lastSeen := now)];
      ok := now >= entries[ip].lockedTill;
    }

    method AllowedKey(key: string, budget: int, now: Time) returns (ok: bool)
      modifies this
      ensures View() == Step(limits, old(View()), AskKey(key, budget, now))
      ensures ok <==> !Refuses(limits, old(View()), AskKey(key, budget, now))
    {
      MaybeSweep(now);
      if key !in entries {
        return true;
      }
      entries := entries[key := entries[key].(lastSeen := now)];
      if entries[key].fails < budget {
        return true;
      }
      ok := now >= entries[key].lockedTill;
    }

    method Fail(ip: string, now: Time) returns (lockout: nat, ghost hint: string)
      modifies this
      ensures View() == Step(limits, old(View()), Strike(ip, now, hint))
      ensures lockout == Backoff(entries[ip].fails)
    {
      hint := "";
      MaybeSweep(now);
      if ip !in entries {
        hint := EvictIfFull(now);
        entries := entries[ip := Entry(0, 0, 0)];
      }
      var e := entries[ip].(lastSeen := now, fails := entries[ip].fails + 1);
      entries := entries[ip := e];
      if e.fails <= FREE_FAILURES {
        return 0, hint;
      }
      lockout := Backoff(e.fails);
      entries := entries[ip := e.(lockedTill := now + lockout)];
    }

    method FailKey(key: string, now: Time) returns (ghost hint: string)
      modifies this
      ensures View() == Step(limits, old(View()), StrikeKey(key, now, hint))
    {
      hint := "";
      MaybeSweep(now);
      if key !in entries {
        hint := EvictIfFull(now);
        entries := entries[key := Entry(0, 0, 0)];
      }
      var e := entries[key];
      entries := entries[key := Entry(e.fails + 1, now + USERNAME_LOCKOUT, now)];
    }

    method Success(key: string, now: Time)
      modifies this`entries
      ensures View() == Step(limits, old(View()), Clear(key, now))
    {
      entries := entries - {Normalized(key)};
    }
  }
}
