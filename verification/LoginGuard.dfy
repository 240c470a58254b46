/** The limiter against one that never forgets, over every history of the guard's calls. */
module LoginGuard {

  import opened LoginLimiters

  ghost function Run(l: Limits, h: seq<Event>): State
    decreases |h|
  {
    if h == [] then State(map[], 0) else Step(l, Run(l, h[..|h| - 1]), h[|h| - 1])
  }

  // ---------- What a limiter that never forgets would say ----------

  predicate Clears(ev: Event, k: string) {
    ev.Clear? && Normalized(ev.key) == k
  }

  predicate Strikes(ev: Event, k: string) {
    IsStrike(ev) && ev.key == k
  }

  /** Failures of a key since it was last cleared. */
  function Failures(h: seq<Event>, k: string): nat
    decreases |h|
  {
    if h == [] then 0
    else
      var n, ev := Failures(h[..|h| - 1], k), h[|h| - 1];
      if Clears(ev, k) then 0 else if Strikes(ev, k) then n + 1 else n
  }

  function LastFailure(h: seq<Event>, k: string): Time
    decreases |h|
  {
    if h == [] then 0
    else if Strikes(h[|h| - 1], k) then h[|h| - 1].now else LastFailure(h[..|h| - 1], k)
  }

  /** Until when a key is locked, by its whole history. */
  function LockedUntil(h: seq<Event>, k: string): Time {
    var n := Failures(h, k);
    if n == 0 then 0
    else if IsUserKey(k) then LastFailure(h, k) + USERNAME_LOCKOUT
    else if n <= FREE_FAILURES then 0
    else LastFailure(h, k) + Backoff(n)
  }

  predicate Locked(h: seq<Event>, ev: Event)
    requires ev.Ask? || ev.AskKey?
  {
    ev.now < LockedUntil(h, ev.key) && (ev.AskKey? ==> Failures(h, ev.key) >= ev.budget)
  }

  /** The guard's discipline: the clock does not go back, addresses and usernames do not
      share keys. */
  ghost predicate Disciplined(h: seq<Event>) {
    && (forall i, j :: 0 <= i < j < |h| ==> h[i].now <= h[j].now)
    && (forall i :: 0 <= i < |h| ==> (h[i].Strike? ==> !IsUserKey(h[i].key)) && (h[i].StrikeKey? ==> IsUserKey(h[i].key)))
  }

  function Clock(h: seq<Event>): Time {
    if h == [] then 0 else h[|h| - 1].now
  }

  lemma {:induction false} LastFailureIsReal(h: seq<Event>, k: string)
    requires Disciplined(h)
    ensures LastFailure(h, k) <= Clock(h)
    ensures Failures(h, k) > 0 ==> exists i :: 0 <= i < |h| && Strikes(h[i], k) && h[i].now == LastFailure(h, k)
    decreases |h|
  {
    if h != [] {
      var p := h[..|h| - 1];
      LastFailureIsReal(p, k);
      if Failures(p, k) > 0 {
        var i :| 0 <= i < |p| && Strikes(p[i], k) && p[i].now == LastFailure(p, k);
        assert h[i] == p[i];
      }
      assert Strikes(h[|h| - 1], k) ==> h[|h| - 1].now == LastFailure(h, k);
      if p != [] {
        assert p[|p| - 1] == h[|h| - 2];
      }
    }
  }

  lemma Appended(h: seq<Event>, ev: Event, k: string)
    ensures Failures(h + [ev], k) == if Clears(ev, k) then 0 else Failures(h, k) + if Strikes(ev, k) then 1 else 0
    ensures LastFailure(h + [ev], k) == if Strikes(ev, k) then ev.now else LastFailure(h, k)
  {
    assert (h + [ev])[..|h|] == h;
  }

  lemma DisciplinedPrefix(h: seq<Event>, ev: Event)
    requires Disciplined(h + [ev])
    ensures Disciplined(h) && Clock(h) <= ev.now
    ensures (ev.Strike? ==> !IsUserKey(ev.key)) && (ev.StrikeKey? ==> IsUserKey(ev.key))
  {
    var g := h + [ev];
    assert forall i :: 0 <= i < |h| ==> h[i] == g[i];
    assert g[|h|] == ev;
  }

  /** A further failure never shortens a lock. */
  lemma LockGrows(h: seq<Event>, ev: Event)
    requires Disciplined(h + [ev]) && IsStrike(ev)
    ensures LockedUntil(h, ev.key) <= LockedUntil(h + [ev], ev.key)
  {
    DisciplinedPrefix(h, ev);
    LastFailureIsReal(h, ev.key);
    Appended(h, ev, ev.key);
    BackoffGrows(Failures(h, ev.key), Failures(h, ev.key) + 1);
  }

  // ---------- Sweeping and eviction only forgive ----------

  ghost predicate EntryForgives(h: seq<Event>, k: string, e: Entry) {
    1 <= e.fails <= Failures(h, k) && e.lockedTill <= LockedUntil(h, k)
  }

  ghost predicate Forgives(h: seq<Event>, t: Table) {
    forall k :: k in t ==> EntryForgives(h, k, t[k])
  }

  lemma SmallerForgives(h: seq<Event>, t: Table, u: Table)
    requires Forgives(h, t)
    requires forall k :: k in u ==> k in t && u[k].fails == t[k].fails && u[k].lockedTill == t[k].lockedTill
    ensures Forgives(h, u)
  {
    hide Failures, LockedUntil;
    forall k | k in u ensures EntryForgives(h, k, u[k]) {
      assert EntryForgives(h, k, t[k]);
    }
  }

  lemma OpenedForgives(l: Limits, h: seq<Event>, s: State, key: string, now: Time, hint: string)
    requires Forgives(h, s.entries)
    ensures var (t, e) := Opened(l, s, key, now, hint);
      Forgives(h, t) && e.fails <= Failures(h, key) && e.lockedTill <= LockedUntil(h, key)
  {
    hide Failures, LockedUntil;
    var (t, e) := Opened(l, s, key, now, hint);
    SmallerForgives(h, s.entries, MaybeSwept(l, s, now).entries);
    SmallerForgives(h, s.entries, t);
    if e != Entry(0, 0, 0) {
      assert EntryForgives(h, key, t[key]);
    }
  }

  /** The struck key keeps within its history. */
  lemma StruckForgives(h: seq<Event>, ev: Event, e: Entry)
    requires Disciplined(h + [ev]) && IsStrike(ev)
    requires e.fails <= Failures(h, ev.key) && e.lockedTill <= LockedUntil(h, ev.key)
    ensures EntryForgives(h + [ev], ev.key, Charged(ev, e))
  {
    hide Failures, LastFailure, Backoff, Disciplined;
    DisciplinedPrefix(h, ev);
    LockGrows(h, ev);
    Appended(h, ev, ev.key);
    BackoffGrows(e.fails + 1, Failures(h, ev.key) + 1);
  }

  /** What one event does to keys it is not about. */
  lemma OthersForgive(h: seq<Event>, ev: Event, t: Table)
    requires Forgives(h, t)
    requires forall k :: k in t ==> !Clears(ev, k) && !Strikes(ev, k)
    ensures Forgives(h + [ev], t)
  {
    forall k | k in t ensures EntryForgives(h + [ev], k, t[k]) {
      assert EntryForgives(h, k, t[k]);
      Appended(h, ev, k);
    }
  }

  lemma StrikeForgives(h: seq<Event>, t: Table, e: Entry, ev: Event)
    requires Disciplined(h + [ev]) && IsStrike(ev) && Forgives(h, t)
    requires e.fails <= Failures(h, ev.key) && e.lockedTill <= LockedUntil(h, ev.key)
    ensures Forgives(h + [ev], t[ev.key := Charged(ev, e)])
  {
    hide Failures, LockedUntil, Disciplined, EntryForgives, Charged;
    StruckForgives(h, ev, e);
    var rest, u := t - {ev.key}, t[ev.key := Charged(ev, e)];
    OthersForgive(h, ev, rest);
    forall k | k in u ensures EntryForgives(h + [ev], k, u[k]) {
      if k != ev.key {
        assert u[k] == rest[k];
      }
    }
  }

  lemma StepForgives(l: Limits, h: seq<Event>, s: State, ev: Event)
    requires Forgives(h, s.entries) && Disciplined(h + [ev])
    ensures Forgives(h + [ev], Step(l, s, ev).entries)
  {
    hide Failures, LockedUntil, Disciplined, EntryForgives, Charged;
    if IsStrike(ev) {
      hide Forgives, Opened;
      OpenedForgives(l, h, s, ev.key, ev.now, ev.hint);
      var (t, e) := Opened(l, s, ev.key, ev.now, ev.hint);
      StrikeForgives(h, t, e, ev);
    } else {
      SmallerForgives(h, s.entries, Step(l, s, ev).entries);
      OthersForgive(h, ev, Step(l, s, ev).entries);
    }
  }

  lemma {:induction false} RunForgives(l: Limits, h: seq<Event>)
    requires Disciplined(h)
    ensures Forgives(h, Run(l, h).entries)
    decreases |h|
  {
    if h != [] {
      var p, ev := h[..|h| - 1], h[|h| - 1];
      assert h == p + [ev];
      DisciplinedPrefix(p, ev);
      RunForgives(l, p);
      StepForgives(l, p, Run(l, p), ev);
    }
  }

  /** Simulation: whatever was swept or evicted, a refusal is one that a limiter that
      never forgets would also have given. */
  lemma OnlyForgives(l: Limits, h: seq<Event>, ask: Event)
    requires Disciplined(h) && (ask.Ask? || ask.AskKey?)
    requires Refuses(l, Run(l, h), ask)
    ensures Locked(h, ask)
  {
    RunForgives(l, h);
    assert EntryForgives(h, ask.key, Run(l, h).entries[ask.key]);
  }

  /** An address is refused only within 320 seconds of one of its failures, of which there
      were at least five; a username only within 60 seconds of one, after fifty. */
  lemma RefusalsAreRecent(l: Limits, h: seq<Event>, ip: string, name: string, now: Time)
    requires Disciplined(h) && !IsUserKey(ip)
    ensures Refuses(l, Run(l, h), Ask(ip, now)) ==>
      && Failures(h, ip) >= 5
      && exists i :: 0 <= i < |h| && Strikes(h[i], ip) && now < h[i].now + LONGEST_LOCKOUT
    ensures Refuses(l, Run(l, h), AskKey(UsernameKey(name), USERNAME_FAIL_BUDGET, now)) ==>
      && Failures(h, UsernameKey(name)) >= 50
      && exists i :: 0 <= i < |h| && Strikes(h[i], UsernameKey(name)) && now < h[i].now + USERNAME_LOCKOUT
  {
    if Refuses(l, Run(l, h), Ask(ip, now)) {
      OnlyForgives(l, h, Ask(ip, now));
      LastFailureIsReal(h, ip);
    }
    var key := UsernameKey(name);
    if Refuses(l, Run(l, h), AskKey(key, USERNAME_FAIL_BUDGET, now)) {
      OnlyForgives(l, h, AskKey(key, USERNAME_FAIL_BUDGET, now));
      LastFailureIsReal(h, key);
    }
  }

  /** Why the two kinds of key must not mix: an address also struck as a username is
      refused after two failures, which its history does not call for. */
  lemma MixedKeysOverstay(l: Limits)
    requires l.maxEntries >= 1
    ensures var h := [StrikeKey("k", 1, ""), Strike("k", 2, "")];
      Refuses(l, Run(l, h), Ask("k", 3)) && !Locked(h, Ask("k", 3))
  {
    var a, b := StrikeKey("k", 1, ""), Strike("k", 2, "");
    assert [a][..0] == [] && [a, b][..1] == [a];
    assert Run(l, [a]) == State(map["k" := Entry(1, 1 + USERNAME_LOCKOUT, 1)], 1);
    assert Run(l, [a, b]) == State(map["k" := Entry(2, 1 + USERNAME_LOCKOUT, 2)], 1);
    Appended([], a, "k");
    Appended([a], b, "k");
    assert [] + [a] == [a] && [a] + [b] == [a, b];
  }

  // ---------- A key kept alive is remembered in full ----------

  predicate Touches(ev: Event, k: string) {
    !ev.Clear? && ev.key == k
  }

  function LastTouch(h: seq<Event>, k: string): Time
    decreases |h|
  {
    if h == [] then 0
    else if Touches(h[|h| - 1], k) then h[|h| - 1].now else LastTouch(h[..|h| - 1], k)
  }

  /** Since its first failure the key was never left alone, unlocked, for the time to live. */
  ghost predicate KeptAlive(l: Limits, h: seq<Event>, k: string) {
    forall i :: 0 <= i < |h| && !h[i].Clear? && Failures(h[..i], k) > 0 ==>
      h[i].now <= LockedUntil(h[..i], k) || h[i].now - LastTouch(h[..i], k) < l.entryTTL
  }

  /** Making room for another key drops this one. */
  ghost predicate Evicts(l: Limits, s: State, ev: Event, k: string) {
    var t := MaybeSwept(l, s, ev.now).entries;
    IsStrike(ev) && ev.key !in t && k in t && k !in Roomier(l, t, ev.now, ev.hint)
  }

  ghost predicate NeverEvicted(l: Limits, h: seq<Event>, k: string) {
    forall i :: 0 <= i < |h| ==> !Evicts(l, Run(l, h[..i]), h[i], k)
  }

  ghost predicate EntryExact(h: seq<Event>, k: string, t: Table) {
    && (k in t <==> Failures(h, k) > 0)
    && (k in t ==> t[k] == Entry(Failures(h, k), LockedUntil(h, k), LastTouch(h, k)))
  }

  lemma TouchAppended(h: seq<Event>, ev: Event, k: string)
    ensures LastTouch(h + [ev], k) == if Touches(ev, k) then ev.now else LastTouch(h, k)
  {
    assert (h + [ev])[..|h|] == h;
  }

  /** An exact entry stays exact when charged. */
  lemma ChargedExact(h: seq<Event>, t: Table, u: Table, ev: Event)
    requires Disciplined(h + [ev]) && IsStrike(ev) && EntryExact(h, ev.key, t)
    ensures var e := if ev.key in t then t[ev.key] else Entry(0, 0, 0);
      EntryExact(h + [ev], ev.key, u[ev.key := Charged(ev, e)])
  {
    hide Failures, LastTouch;
    DisciplinedPrefix(h, ev);
    Appended(h, ev, ev.key);
    TouchAppended(h, ev, ev.key);
  }

  /** Neither the sweep nor making room for another key drops an entry kept alive. */
  lemma AliveStays(l: Limits, s: State, ev: Event, k: string)
    requires !ev.Clear? && k in s.entries
    requires ev.now <= s.entries[k].lockedTill || ev.now - s.entries[k].lastSeen < l.entryTTL
    requires !Evicts(l, s, ev, k)
    ensures var t := MaybeSwept(l, s, ev.now).entries;
      && k in t && t[k] == s.entries[k]
      && (IsStrike(ev) && ev.key !in t ==> k in Roomier(l, t, ev.now, ev.hint) && Roomier(l, t, ev.now, ev.hint)[k] == t[k])
  {
  }

  lemma StepExact(l: Limits, h: seq<Event>, s: State, ev: Event, k: string)
    requires Disciplined(h + [ev]) && EntryExact(h, k, s.entries) && !Evicts(l, s, ev, k)
    requires !ev.Clear? && Failures(h, k) > 0 ==>
      ev.now <= LockedUntil(h, k) || ev.now - LastTouch(h, k) < l.entryTTL
    ensures EntryExact(h + [ev], k, Step(l, s, ev).entries)
  {
    hide Failures, LastTouch, LockedUntil, Disciplined;
    Appended(h, ev, k);
    TouchAppended(h, ev, k);
    LockAppended(h, ev, k);
    if !ev.Clear? && k in s.entries {
      AliveStays(l, s, ev, k);
    }
    if Strikes(ev, k) {
      ChargedExact(h, s.entries, Opened(l, s, k, ev.now, ev.hint).0, ev);
    }
    hide Roomier, Charged, Evicts;
  }

  /** What is not about a key leaves its lock. */
  lemma LockAppended(h: seq<Event>, ev: Event, k: string)
    ensures !Strikes(ev, k) && !Clears(ev, k) ==> LockedUntil(h + [ev], k) == LockedUntil(h, k)
  {
    Appended(h, ev, k);
    hide Failures, LastFailure;
  }

  ghost predicate Quiet(l: Limits, h: seq<Event>, k: string) {
    KeptAlive(l, h, k) && NeverEvicted(l, h, k)
  }

  lemma QuietPrefix(l: Limits, h: seq<Event>, k: string)
    requires h != [] && Quiet(l, h, k)
    ensures Quiet(l, h[..|h| - 1], k)
    ensures var p, ev := h[..|h| - 1], h[|h| - 1];
      && !Evicts(l, Run(l, p), ev, k)
      && (!ev.Clear? && Failures(p, k) > 0 ==> ev.now <= LockedUntil(p, k) || ev.now - LastTouch(p, k) < l.entryTTL)
  {
    hide Failures, LockedUntil, LastTouch, Evicts, Run;
    var p := h[..|h| - 1];
    assert forall i :: 0 <= i < |p| ==> p[..i] == h[..i] && p[i] == h[i];
  }

  lemma {:induction false} RunExact(l: Limits, h: seq<Event>, k: string)
    requires Disciplined(h) && Quiet(l, h, k)
    ensures EntryExact(h, k, Run(l, h).entries)
    decreases |h|
  {
    if h != [] {
      var p, ev := h[..|h| - 1], h[|h| - 1];
      assert h == p + [ev];
      DisciplinedPrefix(p, ev);
      QuietPrefix(l, h, k);
      hide *;
      RunAppended(l, p, ev);
      RunExact(l, p, k);
      StepExact(l, p, Run(l, p), ev, k);
    }
  }

  /** For a key that is never left alone for the time to live and never evicted, whatever
      happens to the others, the answers are exactly those of the limiter that never forgets. */
  lemma ExactWhileQuiet(l: Limits, h: seq<Event>, ask: Event)
    requires (ask.Ask? || ask.AskKey?) && Disciplined(h + [ask]) && Quiet(l, h + [ask], ask.key)
    ensures Refuses(l, Run(l, h), ask) <==> Locked(h, ask)
  {
    var g := h + [ask];
    assert g[..|g| - 1] == h && g[|g| - 1] == ask;
    DisciplinedPrefix(h, ask);
    QuietPrefix(l, g, ask.key);
    RunExact(l, h, ask.key);
    hide Failures, LockedUntil, LastTouch, Run;
    if ask.key in Run(l, h).entries {
      AliveStays(l, Run(l, h), ask, ask.key);
    }
    hide Evicts, Quiet;
  }

  ghost function StruckKeys(h: seq<Event>): set<string> {
    set i | 0 <= i < |h| && IsStrike(h[i]) :: h[i].key
  }

  lemma {:induction false} FailuresAreStruck(h: seq<Event>, k: string)
    requires Failures(h, k) > 0
    ensures k in StruckKeys(h)
    decreases |h|
  {
    var p := h[..|h| - 1];
    if Strikes(h[|h| - 1], k) {
    } else {
      FailuresAreStruck(p, k);
      var i :| 0 <= i < |p| && IsStrike(p[i]) && p[i].key == k;
      assert h[i] == p[i];
    }
  }

  lemma SubsetSize(a: set<string>, b: set<string>)
    requires a <= b
    ensures |a| <= |b|
  {
    assert b == a + (b - a);
  }

  /** Nothing is ever evicted while no more keys failed than the table holds. */
  lemma RoomForAll(l: Limits, h: seq<Event>, k: string)
    requires Disciplined(h) && |StruckKeys(h)| <= l.maxEntries
    ensures NeverEvicted(l, h, k)
  {
    forall i | 0 <= i < |h| ensures !Evicts(l, Run(l, h[..i]), h[i], k) {
      var p, t := h[..i], MaybeSwept(l, Run(l, h[..i]), h[i].now).entries;
      assert Disciplined(p);
      RunForgives(l, p);
      forall x | x in t ensures x in StruckKeys(h) {
        assert EntryForgives(p, x, Run(l, p).entries[x]);
        FailuresAreStruck(p, x);
        var j :| 0 <= j < |p| && IsStrike(p[j]) && p[j].key == x;
        assert h[j] == p[j];
      }
      if IsStrike(h[i]) && h[i].key !in t {
        SubsetSize(t.Keys + {h[i].key}, StruckKeys(h));
      }
    }
  }

  // ---------- Size ----------

  lemma SweepKeepsLocked(l: Limits, s: State, now: Time, k: string)
    requires k in s.entries && now <= s.entries[k].lockedTill
    ensures k in MaybeSwept(l, s, now).entries && MaybeSwept(l, s, now).entries[k] == s.entries[k]
  {
  }

  lemma SweepShrinks(l: Limits, s: State, now: Time)
    ensures |MaybeSwept(l, s, now).entries| <= |s.entries|
  {
    SubsetSize(MaybeSwept(l, s, now).entries.Keys, s.entries.Keys);
  }

  /** Room is made for one more unless the least recently seen key is the empty string. */
  lemma RoomIff(l: Limits, t: Table, now: Time, hint: string)
    requires l.maxEntries >= 1 && |t| <= l.maxEntries
    ensures var u := Swept(t, now, l.entryTTL);
      |Roomier(l, t, now, hint)| < l.maxEntries <==> |t| < l.maxEntries || |u| < l.maxEntries || Victim(u, hint) != ""
    ensures Roomier(l, t, now, hint).Keys <= t.Keys
  {
    var u := Swept(t, now, l.entryTTL);
    SubsetSize(u.Keys, t.Keys);
    hide Swept;
    if |t| >= l.maxEntries && |u| >= l.maxEntries && Victim(u, hint) != "" {
      assert (u - {Victim(u, hint)}).Keys == u.Keys - {Victim(u, hint)};
    }
  }

  lemma StrikeSize(l: Limits, s: State, ev: Event)
    requires IsStrike(ev)
    ensures var t := MaybeSwept(l, s, ev.now).entries;
      |Step(l, s, ev).entries| == if ev.key in t then |t| else |Roomier(l, t, ev.now, ev.hint) - {ev.key}| + 1
  {
    var t := MaybeSwept(l, s, ev.now).entries;
    hide MaybeSwept, Roomier, Charged;
    var r := if ev.key in t then t else Roomier(l, t, ev.now, ev.hint);
    var keys := Step(l, s, ev).entries.Keys;
    assert keys == (r - {ev.key}).Keys + {ev.key};
    if ev.key in t {
      assert keys == t.Keys;
    }
  }

  /** The bound holds after a failure unless a full table's least recently seen key is the
      empty string, the one key that is never evicted. */
  lemma SizeIff(l: Limits, s: State, ev: Event)
    requires l.maxEntries >= 1 && |s.entries| <= l.maxEntries && IsStrike(ev)
    ensures var t := MaybeSwept(l, s, ev.now).entries;
      var u := Swept(t, ev.now, l.entryTTL);
      |Step(l, s, ev).entries| <= l.maxEntries <==>
        ev.key in t || |t| < l.maxEntries || |u| < l.maxEntries || Victim(u, ev.hint) != ""
  {
    hide Step, MaybeSwept, Roomier, Swept;
    var t := MaybeSwept(l, s, ev.now).entries;
    SweepShrinks(l, s, ev.now);
    StrikeSize(l, s, ev);
    RoomIff(l, t, ev.now, ev.hint);
    if ev.key !in t {
      var r := Roomier(l, t, ev.now, ev.hint);
      assert r - {ev.key} == r;
    }
  }

  /** With no failure ever charged to the empty string the table stays within its bound. */
  lemma {:induction false} Bounded(l: Limits, h: seq<Event>)
    requires l.maxEntries >= 1 && forall i :: 0 <= i < |h| && IsStrike(h[i]) ==> h[i].key != ""
    ensures |Run(l, h).entries| <= l.maxEntries && "" !in Run(l, h).entries
    decreases |h|
  {
    if h != [] {
      var p, ev := h[..|h| - 1], h[|h| - 1];
      Bounded(l, p);
      var s := Run(l, p);
      if IsStrike(ev) {
        SizeIff(l, s, ev);
      } else {
        SubsetSize(Step(l, s, ev).entries.Keys, s.entries.Keys);
      }
    }
  }

  /** With it, a table for one holds two. */
  lemma EmptyKeyOverflows()
    ensures |Run(Limits(1, 3600 * SECOND), [Strike("", 1, ""), Strike("a", 2, "")]).entries| == 2
  {
    var l := Limits(1, 3600 * SECOND);
    var first := [Strike("", 1, "")];
    var h := [Strike("", 1, ""), Strike("a", 2, "")];
    assert first[..0] == [] && h[..1] == first;
    var s := Run(l, first);
    assert s == State(map["" := Entry(1, 0, 1)], 1);
    var u := Swept(s.entries, 2, l.entryTTL);
    assert u == s.entries;
    assert IsOldest(u, "");
    assert Run(l, h).entries == map["" := Entry(1, 0, 1), "a" := Entry(1, 0, 2)];
  }

  // ---------- The guard ----------

  /** What a successful login asks of the limiter. */
  function Succeeded(ip: string, name: string, now: Time): seq<Event> {
    [Clear(ip, now)] + if name == "" then [] else [Clear(UsernameKey(name), now)]
  }

  lemma RunAppended(l: Limits, h: seq<Event>, ev: Event)
    ensures Run(l, h + [ev]) == Step(l, Run(l, h), ev)
  {
    assert (h + [ev])[..|h|] == h;
  }

  lemma RunSucceeded(l: Limits, h: seq<Event>, ip: string, name: string, now: Time)
    requires !IsUserKey(ip) && name != ""
    ensures Run(l, h + Succeeded(ip, name, now)).entries == Run(l, h).entries - {ip} - {Normalized(UsernameKey(name))}
  {
    hide Run, Normalized;
    var a, b := Clear(ip, now), Clear(UsernameKey(name), now);
    assert h + Succeeded(ip, name, now) == h + [a] + [b];
    assert Normalized(ip) == ip by { AddressIsClean(ip); }
    RunAppended(l, h, a);
    RunAppended(l, h + [a], b);
  }

  lemma AddressIsClean(ip: string)
    requires !IsUserKey(ip)
    ensures Normalized(ip) == ip
  {
  }

  /** A login that succeeds is meant to clear both counters.  The username's entry goes if
      and only if the address clean-up, which is applied to its key too, leaves that alone;
      otherwise it stays as it is. */
  lemma SuccessClearsIff(l: Limits, h: seq<Event>, ip: string, name: string, now: Time)
    requires !IsUserKey(ip) && name != ""
    ensures var before, after := Run(l, h).entries, Run(l, h + Succeeded(ip, name, now)).entries;
      var key := UsernameKey(name);
      && ip !in after
      && (key in after <==> key in before && !Plain(name))
      && (key in after ==> after[key] == before[key])
  {
    RunSucceeded(l, h, ip, name, now);
    NormalizedIff(name);
    hide Run, Normalized, Plain;
  }

  /** What is left of the failures counted against a username after it logs in. */
  lemma FailuresAfterSuccess(h: seq<Event>, ip: string, name: string, now: Time)
    requires !IsUserKey(ip) && name != ""
    ensures var key := UsernameKey(name);
      && Failures(h + Succeeded(ip, name, now), ip) == 0
      && Failures(h + Succeeded(ip, name, now), key) == if Plain(name) then 0 else Failures(h, key)
  {
    var a, b := Clear(ip, now), Clear(UsernameKey(name), now);
    assert h + Succeeded(ip, name, now) == h + [a] + [b];
    NormalizedIff(name);
    Appended(h, a, UsernameKey(name));
    Appended(h + [a], b, UsernameKey(name));
    Appended(h, a, ip);
    Appended(h + [a], b, ip);
  }

  /** So many failures of one username at once. */
  function Burst(name: string, n: nat, now: Time): (h: seq<Event>)
    ensures |h| == n && forall ev :: ev in h ==> ev == StrikeKey(UsernameKey(name), now, "")
  {
    if n == 0 then [] else Burst(name, n - 1, now) + [StrikeKey(UsernameKey(name), now, "")]
  }

  lemma {:induction false} BurstCounts(name: string, n: nat, now: Time)
    ensures Failures(Burst(name, n, now), UsernameKey(name)) == n
  {
    if n > 0 {
      BurstCounts(name, n - 1, now);
      Appended(Burst(name, n - 1, now), StrikeKey(UsernameKey(name), now, ""), UsernameKey(name));
    }
  }

  /** At one instant, with one username failing, nothing is forgotten. */
  lemma InstantIsQuiet(l: Limits, h: seq<Event>, key: string, now: Time)
    requires l.maxEntries >= 1 && IsUserKey(key) && Disciplined(h)
    requires forall ev :: ev in h ==> ev.now == now && (IsStrike(ev) ==> ev.key == key)
    ensures Quiet(l, h, key)
  {
    hide Failures, LastFailure, LastTouch, NeverEvicted;
    forall i | 0 <= i < |h| && !h[i].Clear? && Failures(h[..i], key) > 0 ensures h[i].now <= LockedUntil(h[..i], key) {
      assert Disciplined(h[..i]);
      LastFailureIsReal(h[..i], key);
      assert forall j :: 0 <= j < |h| ==> h[j] in h;
    }
    SubsetSize(StruckKeys(h), {key});
    RoomForAll(l, h, key);
  }

  /** One failure short of the budget, a login that succeeds, one more failure. */
  function AlmostLocked(ip: string, name: string, now: Time): seq<Event> {
    Burst(name, USERNAME_FAIL_BUDGET - 1, now) + Succeeded(ip, name, now) + [StrikeKey(UsernameKey(name), now, "")]
  }

  lemma AlmostLockedFails(ip: string, name: string, now: Time)
    requires !IsUserKey(ip) && name != ""
    ensures var h, key := AlmostLocked(ip, name, now), UsernameKey(name);
      Failures(h, key) == (if Plain(name) then 1 else USERNAME_FAIL_BUDGET) && LastFailure(h, key) == now
  {
    hide Failures, LastFailure, Burst, Plain;
    var burst := Burst(name, USERNAME_FAIL_BUDGET - 1, now);
    BurstCounts(name, USERNAME_FAIL_BUDGET - 1, now);
    FailuresAfterSuccess(burst, ip, name, now);
    Appended(burst + Succeeded(ip, name, now), StrikeKey(UsernameKey(name), now, ""), UsernameKey(name));
  }

  lemma AlmostLockedIsQuiet(l: Limits, ip: string, name: string, now: Time)
    requires l.maxEntries >= 1 && name != ""
    ensures var ask := AskKey(UsernameKey(name), USERNAME_FAIL_BUDGET, now);
      Disciplined(AlmostLocked(ip, name, now) + [ask]) && Quiet(l, AlmostLocked(ip, name, now) + [ask], ask.key)
  {
    hide Quiet;
    var ask := AskKey(UsernameKey(name), USERNAME_FAIL_BUDGET, now);
    var h := AlmostLocked(ip, name, now) + [ask];
    assert forall ev :: ev in h ==> ev.now == now && (IsStrike(ev) ==> ev == StrikeKey(ask.key, now, ""));
    assert forall i :: 0 <= i < |h| ==> h[i] in h;
    InstantIsQuiet(l, h, ask.key, now);
  }

  /** The owner who just logged in is refused after a single failure if and only if the
      clean-up takes the username for an address. */
  lemma RefusedAfterSuccessIff(l: Limits, ip: string, name: string, now: Time)
    requires l.maxEntries >= 1 && !IsUserKey(ip) && name != ""
    ensures Refuses(l, Run(l, AlmostLocked(ip, name, now)), AskKey(UsernameKey(name), USERNAME_FAIL_BUDGET, now)) <==> !Plain(name)
  {
    hide Failures, LastFailure, Plain, AlmostLocked, Run, Refuses, Disciplined, Quiet;
    AlmostLockedFails(ip, name, now);
    AlmostLockedIsQuiet(l, ip, name, now);
    ExactWhileQuiet(l, AlmostLocked(ip, name, now), AskKey(UsernameKey(name), USERNAME_FAIL_BUDGET, now));
  }

  predicate Ordinary(s: string) {
    ':' !in s && '[' !in s && ']' !in s
  }

  lemma ColonCuts(k: string, b: string)
    requires IsUserKey(k) && Ordinary(k) && Ordinary(b)
    ensures Normalized(k + ":" + b) == k
  {
    var key := k + ":" + b;
    BeforeColonSkips(k, ":" + b);
    assert key == k + (":" + b) && BeforeColon(":" + b) == "";
    assert IsUserKey(key) by {
      assert key[..|k|] == k;
    }
    assert key[|k| + 1..] == b;
    assert '[' !in key && ']' !in key;
    hide BeforeColon, TrimBrackets, IsUserKey;
  }

  /** The clean-up cuts a key with a single colon at that colon. */
  lemma CutAtColon(a: string, b: string)
    requires Ordinary(a) && Ordinary(b)
    ensures Normalized(UsernameKey(a + ":" + b)) == UsernameKey(a) && !Plain(a + ":" + b)
  {
    hide *;
    NormalizedIff(a + ":" + b);
    OrdinaryKey(a);
    KeyConcat(a + ":", b);
    KeyConcat(a, ":");
    ColonCuts(UsernameKey(a), b);
    assert UsernameKey(a) != UsernameKey(a) + ":" + b by {
      assert |UsernameKey(a) + ":" + b| > |UsernameKey(a)|;
    }
  }

  lemma KeyConcat(a: string, b: string)
    ensures UsernameKey(a + b) == UsernameKey(a) + b
  {
    assert USER_PREFIX + (a + b) == USER_PREFIX + a + b;
  }

  lemma OrdinaryKey(a: string)
    requires Ordinary(a)
    ensures Ordinary(UsernameKey(a))
  {
    InConcat(':', a);
    InConcat('[', a);
    InConcat(']', a);
    hide UsernameKey;
  }

  /** And drops brackets a key ends with. */
  lemma BracketsDropped(stem: string, tail: string)
    requires tail != "" && (forall i :: 0 <= i < |tail| ==> tail[i] in "[]") && (stem != "" ==> stem[|stem| - 1] !in "[]")
    ensures Normalized(UsernameKey(stem + tail)) == UsernameKey(stem)
  {
    var key := UsernameKey(stem + tail);
    KeyConcat(stem, tail);
    assert key[|key| - 1] == tail[|tail| - 1];
    assert '[' in key || ']' in key;
    assert UsernameKey(stem)[|UsernameKey(stem)| - 1] !in "[]" by { LastOfKey(stem); }
    TrimmedTo(key, UsernameKey(stem), tail);
    hide TrimBrackets, BeforeColon, UsernameKey;
  }

  lemma LastOfKey(name: string)
    ensures UsernameKey(name)[|UsernameKey(name)| - 1] == if name == "" then '\0' else name[|name| - 1]
  {
  }

  lemma TrimmedTo(s: string, stem: string, tail: string)
    requires s == stem + tail && (forall i :: 0 <= i < |tail| ==> tail[i] in "[]") && stem != "" && stem[|stem| - 1] !in "[]"
    ensures TrimBrackets(s) == stem
  {
    var r := TrimBrackets(s);
    assert s[|stem| - 1] == stem[|stem| - 1];
    assert forall j :: |stem| <= j < |s| ==> s[j] == tail[j - |stem|];
    assert r <= s && |r| == |stem|;
  }

  /** A username like "ops:eu", which the panel accepts: its owner is refused, and each of
      its logins clears the counter of another name, "ops", instead. */
  lemma ColonNameRefused(l: Limits, h: seq<Event>, ip: string, a: string, b: string, now: Time)
    requires l.maxEntries >= 1 && !IsUserKey(ip) && Ordinary(a) && Ordinary(b)
    ensures var name := a + ":" + b;
      && Refuses(l, Run(l, AlmostLocked(ip, name, now)), AskKey(UsernameKey(name), USERNAME_FAIL_BUDGET, now))
      && UsernameKey(a) !in Run(l, h + Succeeded(ip, name, now)).entries
  {
    CutAtColon(a, b);
    RefusedAfterSuccessIff(l, ip, a + ":" + b, now);
    RunSucceeded(l, h, ip, a + ":" + b, now);
    hide Run, Refuses, AlmostLocked, Normalized, Plain;
  }

  method LoginAllowed(login: LoginLimiter, ip: string, name: string, now: Time) returns (ok: bool)
    modifies login
    ensures ok <==>
      && !Refuses(login.limits, old(login.View()), Ask(ip, now))
      && (name == "" ||
          !Refuses(login.limits, Step(login.limits, old(login.View()), Ask(ip, now)),
                   AskKey(UsernameKey(name), USERNAME_FAIL_BUDGET, now)))
  {
    ok := login.Allowed(ip, now);
    if !ok || name == "" {
      return;
    }
    ok := login.AllowedKey(UsernameKey(name), USERNAME_FAIL_BUDGET, now);
  }

  method LoginFailed(login: LoginLimiter, ip: string, name: string, now: Time) returns (lockout: nat, ghost h1: string, ghost h2: string)
    modifies login
    ensures login.View() ==
      var s := Step(login.limits, old(login.View()), Strike(ip, now, h1));
      if name == "" then s else Step(login.limits, s, StrikeKey(UsernameKey(name), now, h2))
  {
    h2 := "";
    lockout, h1 := login.Fail(ip, now);
    if name != "" {
      h2 := login.FailKey(UsernameKey(name), now);
    }
  }

  method LoginSucceeded(login: LoginLimiter, ip: string, name: string, now: Time)
    modifies login
    ensures login.View() ==
      var s := Step(login.limits, old(login.View()), Clear(ip, now));
      if name == "" then s else Step(login.limits, s, Clear(UsernameKey(name), now))
  {
    login.Success(ip, now);
    if name != "" {
      login.Success(UsernameKey(name), now);
    }
  }
}
