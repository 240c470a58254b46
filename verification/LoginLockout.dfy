/** How long a key is refused, in seconds, and after which failure. */
module LoginLockout {

  import opened LoginLimiters
  import opened LoginGuard

  /** The seconds an address is locked for by its n-th failure. */
  function LockSeconds(n: nat): nat {
    if n < 5 then 0 else if n == 5 then 10 else if n == 6 then 20 else if n == 7 then 40
    else if n == 8 then 80 else if n == 9 then 160 else 320
  }

  /** The escalation: nothing up to the fourth failure, 10 seconds for the fifth, twice the
      last up to the tenth, and no more after that. */
  lemma BackoffIs(n: nat)
    ensures Backoff(n) == LockSeconds(n) * 1_000_000_000
    ensures 5 <= n < 10 ==> Backoff(n + 1) == 2 * Backoff(n)
  {
  }

  // ---------- Asking ends nothing ----------

  lemma AskStaysQuiet(l: Limits, h: seq<Event>, ask: Event)
    requires (ask.Ask? || ask.AskKey?) && Quiet(l, h, ask.key) && ask.now < LockedUntil(h, ask.key)
    ensures Quiet(l, h + [ask], ask.key)
  {
    hide Failures, LockedUntil, LastTouch, Run;
    var g := h + [ask];
    assert g[..|h|] == h && forall i :: 0 <= i < |h| ==> g[..i] == h[..i] && g[i] == h[i];
  }

  /** A key that was never left alone for the time to live nor evicted is refused exactly when
      its history calls for it, however long it has been left alone by now. */
  lemma AnswersExactly(l: Limits, h: seq<Event>, ask: Event)
    requires (ask.Ask? || ask.AskKey?) && Disciplined(h + [ask]) && Quiet(l, h, ask.key)
    ensures Refuses(l, Run(l, h), ask) <==> Locked(h, ask)
  {
    hide Quiet, Failures, LockedUntil, Run, Refuses;
    DisciplinedPrefix(h, ask);
    if ask.now < LockedUntil(h, ask.key) {
      AskStaysQuiet(l, h, ask);
      ExactWhileQuiet(l, h, ask);
    } else if Refuses(l, Run(l, h), ask) {
      OnlyForgives(l, h, ask);
    }
  }

  /** Of an address kept so: with its last failure the n-th, at `t`, it is refused from then
      until the lockout of the n-th failure is over, and not after. */
  lemma AddressRefusedIff(l: Limits, h: seq<Event>, ip: string, now: Time)
    requires !IsUserKey(ip) && Disciplined(h + [Ask(ip, now)]) && Quiet(l, h, ip)
    ensures Refuses(l, Run(l, h), Ask(ip, now)) <==>
      Failures(h, ip) >= 5 && now < LastFailure(h, ip) + LockSeconds(Failures(h, ip)) * 1_000_000_000
  {
    hide Quiet, Failures, LastFailure, Run, Refuses, Backoff;
    AnswersExactly(l, h, Ask(ip, now));
    BackoffIs(Failures(h, ip));
  }

  // ---------- From nothing ----------

  function Blows(key: string, ts: seq<Time>): (h: seq<Event>)
    ensures |h| == |ts|
  {
    seq(|ts|, i requires 0 <= i < |ts| => if IsUserKey(key) then StrikeKey(key, ts[i], "") else Strike(key, ts[i], ""))
  }

  lemma {:induction false} BlowsCount(key: string, ts: seq<Time>)
    ensures Failures(Blows(key, ts), key) == |ts|
    ensures ts != [] ==> LastFailure(Blows(key, ts), key) == LastTouch(Blows(key, ts), key) == ts[|ts| - 1]
    decreases |ts|
  {
    if ts != [] {
      var front := ts[..|ts| - 1];
      BlowsCount(key, front);
      assert Blows(key, ts)[..|ts| - 1] == Blows(key, front);
    }
  }

  /** Failures that follow each other within the time to live. */
  ghost predicate Steady(l: Limits, ts: seq<Time>) {
    && (forall i, j :: 0 <= i < j < |ts| ==> ts[i] <= ts[j])
    && (forall i :: 0 < i < |ts| ==> ts[i] - ts[i - 1] < l.entryTTL)
  }

  lemma BlowsQuiet(l: Limits, key: string, ts: seq<Time>)
    requires l.maxEntries >= 1 && Steady(l, ts)
    ensures Disciplined(Blows(key, ts)) && Quiet(l, Blows(key, ts), key)
  {
    hide Failures, LastTouch, NeverEvicted;
    var h := Blows(key, ts);
    forall i | 0 <= i < |h| && Failures(h[..i], key) > 0 ensures h[i].now - LastTouch(h[..i], key) < l.entryTTL {
      assert h[..i] == Blows(key, ts[..i]);
      BlowsCount(key, ts[..i]);
    }
    SubsetSize(StruckKeys(h), {key});
    RoomForAll(l, h, key);
  }

  lemma BlowsThenAsk(key: string, ts: seq<Time>, ask: Event)
    requires Disciplined(Blows(key, ts)) && (ask.Ask? || ask.AskKey?)
    requires ts != [] ==> ts[|ts| - 1] <= ask.now
    ensures Disciplined(Blows(key, ts) + [ask])
  {
    var h, g := Blows(key, ts), Blows(key, ts) + [ask];
    forall i, j | 0 <= i < j < |g| ensures g[i].now <= g[j].now {
      if j == |h| {
        assert h[i].now <= h[|h| - 1].now || i == |h| - 1;
      }
    }
  }

  /** An address fails at these times and nothing else happens: by its n-th failure it is
      refused for 10 seconds when that is the fifth, and twice as long for each further one
      up to 320; before the fifth never. */
  lemma FailuresLock(l: Limits, ip: string, ts: seq<Time>, now: Time)
    requires l.maxEntries >= 1 && !IsUserKey(ip) && Steady(l, ts) && ts != [] && ts[|ts| - 1] <= now
    ensures Refuses(l, Run(l, Blows(ip, ts)), Ask(ip, now)) <==>
      |ts| >= 5 && now < ts[|ts| - 1] + LockSeconds(|ts|) * 1_000_000_000
  {
    hide Quiet, Disciplined, Run, Refuses, Blows, LockSeconds;
    BlowsQuiet(l, ip, ts);
    BlowsThenAsk(ip, ts, Ask(ip, now));
    BlowsCount(ip, ts);
    AddressRefusedIff(l, Blows(ip, ts), ip, now);
  }

  /** A username fails at these times: from the fiftieth failure on it is refused for a minute
      after each, and before that never. */
  lemma FailuresLockName(l: Limits, name: string, ts: seq<Time>, now: Time)
    requires l.maxEntries >= 1 && Steady(l, ts) && ts != [] && ts[|ts| - 1] <= now
    ensures Refuses(l, Run(l, Blows(UsernameKey(name), ts)), AskKey(UsernameKey(name), USERNAME_FAIL_BUDGET, now)) <==>
      |ts| >= 50 && now < ts[|ts| - 1] + 60_000_000_000
  {
    hide Quiet, Disciplined, Run, Refuses, Blows, UsernameKey;
    var key := UsernameKey(name);
    var ask := AskKey(key, USERNAME_FAIL_BUDGET, now);
    BlowsQuiet(l, key, ts);
    BlowsThenAsk(key, ts, ask);
    BlowsCount(key, ts);
    AnswersExactly(l, Blows(key, ts), ask);
  }

  // ---------- What is forgotten ----------

  /** Not locked, and not seen for the time to live. */
  predicate Stale(e: Entry, now: Time, ttl: nat) {
    e.lockedTill < now && now - e.lastSeen >= ttl
  }

  /** Asking drops exactly the stale entries, when the last time that was done is a minute ago
      or never was; it refreshes the entry asked for and touches no other. */
  lemma AskForgetsIff(l: Limits, s: State, q: string, now: Time, k: string)
    ensures var due := s.lastSweep == 0 || now - s.lastSweep >= 60_000_000_000;
      var s' := Step(l, s, Ask(q, now));
      && (k in s'.entries <==> k in s.entries && !(due && Stale(s.entries[k], now, l.entryTTL)))
      && (k in s'.entries ==> s'.entries[k] == if k == q then s.entries[k].(lastSeen := now) else s.entries[k])
      && s'.lastSweep == (if due then now else s.lastSweep)
  {
  }

  /** A failure of a key that has an entry costs nobody else theirs, and while there is room
      neither does one that has none. */
  lemma RoomyStrikeKeeps(l: Limits, s: State, ev: Event, k: string)
    requires IsStrike(ev) && k != ev.key
    requires var t := MaybeSwept(l, s, ev.now).entries; ev.key in t || |t| < l.maxEntries
    ensures var t, u := MaybeSwept(l, s, ev.now).entries, Step(l, s, ev).entries;
      (k in u <==> k in t) && (k in u ==> u[k] == t[k])
  {
    hide MaybeSwept, Charged;
  }

  /** The keys with an entry that is not stale. */
  function LiveKeys(t: Table, now: Time, ttl: nat): set<string> {
    set k | k in t && !Stale(t[k], now, ttl)
  }

  /** In a full table room is made at the cost of the stale entries, and if they are too few,
      of one more: of a key seen least recently, the empty one excepted. */
  lemma RoomCosts(l: Limits, t: Table, now: Time, hint: string) returns (v: string)
    requires l.maxEntries >= 1 && |t| >= l.maxEntries
    ensures var live, r := LiveKeys(t, now, l.entryTTL), Roomier(l, t, now, hint);
      && (|live| < l.maxEntries ==> r.Keys == live)
      && (|live| >= l.maxEntries ==>
            && v in live && (forall o :: o in live ==> t[v].lastSeen <= t[o].lastSeen)
            && r.Keys == if v == "" then live else live - {v})
      && (forall k :: k in r ==> k in t && r[k] == t[k])
  {
    var u := Swept(t, now, l.entryTTL);
    assert u.Keys == LiveKeys(t, now, l.entryTTL);
    assert |u| == |u.Keys|;
    v := "";
    if |u| >= l.maxEntries {
      v := Victim(u, hint);
      assert IsOldest(u, v);
      assert (u - {v}).Keys == u.Keys - {v};
    }
  }

  /** So a failure of a key that has no entry costs the others no more than that. */
  lemma FullStrikeKeeps(l: Limits, s: State, ev: Event)
    requires IsStrike(ev)
    requires var t := MaybeSwept(l, s, ev.now).entries; ev.key !in t && |t| >= l.maxEntries
    ensures var t, u := MaybeSwept(l, s, ev.now).entries, Step(l, s, ev).entries;
      var r := Roomier(l, t, ev.now, ev.hint);
      && ev.key in u && u.Keys == r.Keys + {ev.key}
      && (forall k :: k in r && k != ev.key ==> u[k] == r[k])
  {
    hide MaybeSwept, Charged, Roomier;
  }
}
