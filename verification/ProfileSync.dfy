/** One protocol definition kept in step on many nodes: a profile's bindings, the inbound
    rows they own, and the reconciliation that runs after every change. */
module ProfileSync {

  import opened Texts
  import opened Wrappers

  // ---------- One binding's node ----------

  /** The template's own fields that a binding may set, its listen address, and the rest. */
  datatype Node = Node(port: int, address: string, domain: string, remark: string, tag: string, body: string)

  datatype Details = Details(nodeId: nat, port: int, publicHost: string)

  /** Defaulting, validation and address parsing, which belong to the node model. */
  datatype Rules = Rules(normal: Node -> Node, valid: Node -> bool, bindable: string -> bool)

  function RemarkFor(profile: string, names: map<nat, string>, d: Details): string {
    var name := if d.nodeId in names then names[d.nodeId] else "";
    TrimSpace(profile) + " @ " + if name == "" then "node-" + Itoa(d.nodeId) else name
  }

  /** The template with what the binding sets. */
  function Drafted(t: Node, profile: string, names: map<nat, string>, d: Details): Node {
    Node(if d.port > 0 then d.port else t.port, t.address, if d.publicHost != "" then d.publicHost else t.domain,
         RemarkFor(profile, names, d), "", t.body)
  }

  function Materialise(t: Node, profile: string, names: map<nat, string>, rules: Rules, d: Details): Option<Node> {
    var draft := Drafted(t, profile, names, d);
    if draft.port <= 0 || draft.port > 65535 || !rules.bindable(t.address) then None
    else if !rules.valid(rules.normal(draft)) then None
    else Some(rules.normal(draft))
  }

  /** Nodes without a name are still told apart. */
  lemma UnnamedRemarksDiffer(profile: string, names: map<nat, string>, d: Details, d': Details)
    requires d.nodeId !in names && d'.nodeId !in names && d.nodeId != d'.nodeId
    ensures RemarkFor(profile, names, d) != RemarkFor(profile, names, d')
  {
    hide Itoa, TrimSpace;
    var head := TrimSpace(profile) + " @ " + "node-";
    var a, b := RemarkFor(profile, names, d), RemarkFor(profile, names, d');
    assert a == head + Itoa(d.nodeId) && b == head + Itoa(d'.nodeId);
    assert a[|head|..] == Itoa(d.nodeId) && b[|head|..] == Itoa(d'.nodeId);
    if Itoa(d.nodeId) == Itoa(d'.nodeId) {
      ItoaInjective(d.nodeId, d'.nodeId);
    }
  }

  // ---------- The store ----------

  datatype Binding = Binding(enabled: bool, details: Details, inbound: nat)

  datatype Row = Row(enabled: bool, node: Node)

  /** The inbound rows, this profile's bindings in order, and the next row identifier;
      identifiers are not reused, and 0 owns nothing. */
  datatype Db = Db(rows: map<nat, Row>, bindings: seq<Binding>, next: nat)

  /** How the store answers while one binding is being reconciled. */
  datatype Env = Env(readOk: bool, saveRowOk: bool, createOk: bool, saveBindingOk: bool, deleteOk: bool)

  type Maker = Details -> Option<Node>

  function Wants(on: bool, b: Binding): bool {
    b.enabled && on
  }

  /** One turn of the loop; the flag is whether it goes on. */
  function SyncOne(make: Maker, on: bool, db: Db, i: nat, env: Env): (Db, bool)
    requires i < |db.bindings|
  {
    var b := db.bindings[i];
    if !Wants(on, b) then
      if b.inbound == 0 then (db, true)
      else
        (db.(rows := if env.deleteOk then db.rows - {b.inbound} else db.rows,
             bindings := if env.saveBindingOk then db.bindings[i := b.(inbound := 0)] else db.bindings), true)
    else
      match make(b.details)
      case None => (db, false)
      case Some(n) =>
        if b.inbound != 0 && env.readOk && b.inbound in db.rows then
          if env.saveRowOk then (db.(rows := db.rows[b.inbound := db.rows[b.inbound].(node := n)]), true) else (db, false)
        else if !env.createOk then (db, false)
        else
          var db' := db.(rows := db.rows[db.next := Row(true, n)], next := db.next + 1);
          if env.saveBindingOk then (db'.(bindings := db.bindings[i := b.(inbound := db.next)]), true) else (db', false)
  }

  /** The first `k` bindings, or as far as it gets. */
  function SyncUpTo(make: Maker, on: bool, db: Db, k: nat, envs: nat -> Env): (r: (Db, bool))
    requires k <= |db.bindings|
    ensures |r.0.bindings| == |db.bindings|
  {
    if k == 0 then (db, true)
    else
      var (db', ok) := SyncUpTo(make, on, db, k - 1, envs);
      if ok then SyncOne(make, on, db', k - 1, envs(k - 1)) else (db', false)
  }

  function Sync(make: Maker, on: bool, db: Db, envs: nat -> Env): (Db, bool) {
    SyncUpTo(make, on, db, |db.bindings|, envs)
  }

  class Store {
    var rows: map<nat, Row>
    var bindings: seq<Binding>
    var next: nat

    ghost function View(): Db
      reads this
    {
      Db(rows, bindings, next)
    }

    constructor (db: Db)
      ensures View() == db
    {
      rows, bindings, next := db.rows, db.bindings, db.next;
    }

    method SyncBinding(make: Maker, on: bool, i: nat, env: Env) returns (ok: bool)
      requires i < |bindings|
      modifies this
      ensures (View(), ok) == SyncOne(make, on, old(View()), i, env)
    {
      var b := bindings[i];
      if !b.enabled || !on {
        if b.inbound != 0 {
          if env.deleteOk {
            rows := rows - {b.inbound};
          }
          if env.saveBindingOk {
            bindings := bindings[i := b.(inbound := 0)];
          }
        }
        return true;
      }
      var node := make(b.details);
      if node.None? {
        return false;
      }
      if b.inbound != 0 && env.readOk && b.inbound in rows {
        if env.saveRowOk {
          rows := rows[b.inbound := rows[b.inbound].(node := node.value)];
        }
        return env.saveRowOk;
      }
      if !env.createOk {
        return false;
      }
      rows := rows[next := Row(true, node.value)];
      if env.saveBindingOk {
        bindings := bindings[i := b.(inbound := next)];
      }
      next := next + 1;
      ok := env.saveBindingOk;
    }

    method SyncProfile(make: Maker, on: bool, envs: nat -> Env) returns (ok: bool, applied: nat)
      modifies this
      ensures (View(), ok) == Sync(make, on, old(View()), envs)
      ensures ok ==> applied == Wanted(on, old(bindings))
      ensures !ok ==> exists k: nat :: StopsAt(make, on, old(View()), envs, k) && applied == Wanted(on, old(bindings)[..k])
    {
      hide SyncOne;
      ghost var db := View();
      applied := 0;
      for i := 0 to |bindings|
        invariant |bindings| == |db.bindings|
        invariant (View(), true) == SyncUpTo(make, on, db, i, envs)
        invariant forall j :: i <= j < |bindings| ==> bindings[j] == db.bindings[j]
        invariant applied == Wanted(on, db.bindings[..i])
      {
        OneKeepsOthers(make, on, View(), i, envs(i));
        assert db.bindings[..i + 1][..i] == db.bindings[..i];
        var wants := bindings[i].enabled && on;
        label turn:
        ok := SyncBinding(make, on, i, envs(i));
        if !ok {
          FailureStops(make, on, db, i + 1, |bindings|, envs);
          OnlyWantedFails(make, on, old@turn(View()), i, envs(i));
          assert StopsAt(make, on, db, envs, i);
          return;
        }
        if wants {
          applied := applied + 1;
        }
      }
      assert db.bindings[..|db.bindings|] == db.bindings;
      ok := true;
    }
  }

  /** The sync gets through the first `k` bindings and no further. */
  ghost predicate StopsAt(make: Maker, on: bool, db: Db, envs: nat -> Env, k: nat) {
    k < |db.bindings| && Wants(on, db.bindings[k]) && SyncUpTo(make, on, db, k, envs).1 && !SyncUpTo(make, on, db, k + 1, envs).1
  }

  function Wanted(on: bool, bs: seq<Binding>): nat {
    if bs == [] then 0 else Wanted(on, bs[..|bs| - 1]) + if Wants(on, bs[|bs| - 1]) then 1 else 0
  }

  lemma OnlyWantedFails(make: Maker, on: bool, db: Db, i: nat, env: Env)
    requires i < |db.bindings| && !SyncOne(make, on, db, i, env).1
    ensures Wants(on, db.bindings[i])
  {
  }

  /** The number reported is that of the bindings that are to serve. */
  lemma {:induction false} WantedIs(on: bool, bs: seq<Binding>)
    ensures Wanted(on, bs) == |set i | 0 <= i < |bs| && on && bs[i].enabled|
    decreases |bs|
  {
    if bs != [] {
      var n := |bs| - 1;
      WantedIs(on, bs[..n]);
      var before, all := set i | 0 <= i < n && on && bs[..n][i].enabled, set i | 0 <= i < |bs| && on && bs[i].enabled;
      assert before == set i | 0 <= i < n && on && bs[i].enabled;
      if on && bs[n].enabled {
        assert all == before + {n};
      } else {
        assert all == before;
      }
    }
  }

  lemma OneKeepsOthers(make: Maker, on: bool, db: Db, i: nat, env: Env)
    requires i < |db.bindings|
    ensures var db' := SyncOne(make, on, db, i, env).0;
      |db'.bindings| == |db.bindings| && forall j :: 0 <= j < |db.bindings| && j != i ==> db'.bindings[j] == db.bindings[j]
  {
  }

  lemma {:induction false} FailureStops(make: Maker, on: bool, db: Db, i: nat, k: nat, envs: nat -> Env)
    requires i <= k <= |db.bindings| && !SyncUpTo(make, on, db, i, envs).1
    ensures SyncUpTo(make, on, db, k, envs) == SyncUpTo(make, on, db, i, envs)
    decreases k
  {
    if i < k {
      FailureStops(make, on, db, i, k - 1, envs);
    }
  }

  // ---------- What a sync does to each binding ----------

  /** No two bindings own one row, and identifiers not yet given out are unused. */
  ghost predicate Owned(db: Db) {
    && db.next > 0
    && (forall id :: id in db.rows ==> 0 < id < db.next)
    && (forall i :: 0 <= i < |db.bindings| ==> db.bindings[i].inbound < db.next)
    && (forall i, j :: 0 <= i < j < |db.bindings| && db.bindings[i].inbound != 0 ==> db.bindings[i].inbound != db.bindings[j].inbound)
  }

  ghost predicate Owns(db: Db, id: nat) {
    id != 0 && exists i :: 0 <= i < |db.bindings| && db.bindings[i].inbound == id
  }

  ghost predicate SameRow(db: Db, db': Db, id: nat) {
    (id in db'.rows <==> id in db.rows) && (id in db.rows ==> db'.rows[id] == db.rows[id])
  }

  /** What one binding's turn, when it goes through, leaves of that binding and its row. */
  ghost predicate Outcome(make: Maker, on: bool, db: Db, db': Db, i: nat, env: Env)
    requires i < |db.bindings| == |db'.bindings|
  {
    var b, b' := db.bindings[i], db'.bindings[i];
    if !Wants(on, b) then
      && b'.inbound == (if env.saveBindingOk then 0 else b.inbound)
      && (b.inbound in db'.rows <==> b.inbound in db.rows && !env.deleteOk)
    else
      && make(b.details).Some?
      && b'.inbound in db'.rows
      && db'.rows[b'.inbound] == (if b.inbound in db.rows && env.readOk then db.rows[b.inbound].(node := make(b.details).value)
                                  else Row(true, make(b.details).value))
      && (if b.inbound in db.rows && env.readOk then b'.inbound == b.inbound
          else b'.inbound >= db.next && SameRow(db, db', b.inbound))
  }

  ghost predicate Progress(make: Maker, on: bool, db: Db, db': Db, k: nat, envs: nat -> Env) {
    && Owned(db') && k <= |db.bindings| == |db'.bindings| && db.next <= db'.next
    && (forall i :: 0 <= i < |db.bindings| ==> db'.bindings[i] == db.bindings[i].(inbound := db'.bindings[i].inbound))
    && (forall i :: 0 <= i < k ==> Outcome(make, on, db, db', i, envs(i)))
    && (forall i :: k <= i < |db.bindings| ==> db'.bindings[i] == db.bindings[i] && SameRow(db, db', db.bindings[i].inbound))
    && (forall id: nat :: id < db.next && !Owns(db, id) ==> SameRow(db, db', id))
    && (forall id: nat :: id in db'.rows ==> id in db.rows || Owns(db', id))
  }

  lemma TurnOwned(make: Maker, on: bool, db: Db, k: nat, env: Env)
    requires Owned(db) && k < |db.bindings|
    ensures Owned(SyncOne(make, on, db, k, env).0)
  {
  }

  /** One turn touches its own row, and at most adds one. */
  lemma TurnFrame(make: Maker, on: bool, db: Db, k: nat, env: Env)
    requires Owned(db) && k < |db.bindings|
    ensures var db' := SyncOne(make, on, db, k, env).0;
      && Owned(db') && |db'.bindings| == |db.bindings| && db.next <= db'.next
      && (forall i :: 0 <= i < |db.bindings| && i != k ==> db'.bindings[i] == db.bindings[i])
      && db'.bindings[k] == db.bindings[k].(inbound := db'.bindings[k].inbound)
      && (forall id: nat :: id != db.bindings[k].inbound && id != db.next ==> SameRow(db, db', id))
  {
    TurnOwned(make, on, db, k, env);
    hide Owned;
  }

  lemma TurnOutcome(make: Maker, on: bool, db: Db, k: nat, env: Env)
    requires Owned(db) && k < |db.bindings| && SyncOne(make, on, db, k, env).1
    ensures var db' := SyncOne(make, on, db, k, env).0;
      && |db'.bindings| == |db.bindings|
      && Outcome(make, on, db, db', k, env)
      && (db.next in db'.rows ==> db'.bindings[k].inbound == db.next)
  {
  }

  lemma OutcomeLasts(make: Maker, on: bool, db: Db, db': Db, db'': Db, i: nat, env: Env)
    requires i < |db.bindings| == |db'.bindings| == |db''.bindings| && Outcome(make, on, db, db', i, env)
    requires db''.bindings[i] == db'.bindings[i]
    requires SameRow(db', db'', db.bindings[i].inbound) && SameRow(db', db'', db'.bindings[i].inbound)
    ensures Outcome(make, on, db, db'', i, env)
  {
  }

  lemma OutcomeStarts(make: Maker, on: bool, db: Db, db': Db, db'': Db, i: nat, env: Env)
    requires i < |db.bindings| == |db'.bindings| == |db''.bindings| && Outcome(make, on, db', db'', i, env)
    requires db'.bindings[i] == db.bindings[i] && db.next <= db'.next && SameRow(db, db', db.bindings[i].inbound)
    ensures Outcome(make, on, db, db'', i, env)
  {
  }

  lemma TurnProgress(make: Maker, on: bool, db: Db, db': Db, k: nat, envs: nat -> Env)
    requires Owned(db) && Progress(make, on, db, db', k, envs) && k < |db.bindings|
    requires SyncOne(make, on, db', k, envs(k)).1
    ensures Progress(make, on, db, SyncOne(make, on, db', k, envs(k)).0, k + 1, envs)
  {
    var db'' := SyncOne(make, on, db', k, envs(k)).0;
    TurnFrame(make, on, db', k, envs(k));
    TurnOutcome(make, on, db', k, envs(k));
    hide SyncOne, Outcome, Owned, SameRow;
    OutcomeStarts(make, on, db, db', db'', k, envs(k));
    forall i | 0 <= i < k ensures Outcome(make, on, db, db'', i, envs(i)) {
      ElsewhereIsSame(db, db', db'', i, k);
      OutcomeLasts(make, on, db, db', db'', i, envs(i));
    }
    forall i | k < i < |db.bindings| ensures SameRow(db, db'', db.bindings[i].inbound) {
      ElsewhereIsSame(db, db', db'', i, k);
      SameRowTwice(db, db', db'', db.bindings[i].inbound);
    }
    forall id: nat | id < db.next && !Owns(db, id) ensures SameRow(db, db'', id) {
      ForeignIsSame(db, db', db'', k, id);
      SameRowTwice(db, db', db'', id);
    }
    forall id: nat | id in db''.rows ensures id in db.rows || Owns(db'', id) {
      NothingElseAppears(db, db', db'', k, id);
    }
  }

  lemma SameRowTwice(db: Db, db': Db, db'': Db, id: nat)
    requires SameRow(db, db', id) && SameRow(db', db'', id)
    ensures SameRow(db, db'', id)
  {
  }

  /** Nor is a row no binding owns. */
  lemma ForeignIsSame(db: Db, db': Db, db'': Db, k: nat, id: nat)
    requires Owned(db') && Owned(db'') && k < |db.bindings| && db'.next >= db.next > id && !Owns(db, id)
    requires |db'.bindings| == |db.bindings| && db'.bindings[k] == db.bindings[k]
    requires forall x: nat :: x != db'.bindings[k].inbound && x != db'.next ==> SameRow(db', db'', x)
    ensures SameRow(db', db'', id)
  {
    if id == 0 {
      ZeroIsFree(db');
      ZeroIsFree(db'');
    } else {
      assert id != db.bindings[k].inbound;
    }
  }

  /** A row one binding has or had is not the row of another's turn. */
  lemma ElsewhereIsSame(db: Db, db': Db, db'': Db, i: nat, k: nat)
    requires Owned(db) && Owned(db') && Owned(db'') && i < |db.bindings| && k < |db.bindings| && i != k
    requires |db'.bindings| == |db.bindings| && db'.bindings[k] == db.bindings[k] && db.next <= db'.next
    requires forall id: nat :: id != db'.bindings[k].inbound && id != db'.next ==> SameRow(db', db'', id)
    ensures SameRow(db', db'', db.bindings[i].inbound) && SameRow(db', db'', db'.bindings[i].inbound)
  {
  }

  lemma NothingElseAppears(db: Db, db': Db, db'': Db, k: nat, id: nat)
    requires Owned(db') && Owned(db'') && k < |db'.bindings| == |db''.bindings| && id in db''.rows
    requires forall x: nat :: x in db'.rows ==> x in db.rows || Owns(db', x)
    requires forall i :: 0 <= i < |db'.bindings| && i != k ==> db''.bindings[i] == db'.bindings[i]
    requires forall x: nat :: x != db'.bindings[k].inbound && x != db'.next ==> SameRow(db', db'', x)
    requires db'.next in db''.rows ==> db''.bindings[k].inbound == db'.next
    requires db'.bindings[k].inbound in db''.rows ==> db'.bindings[k].inbound in db.rows || db''.bindings[k].inbound == db'.bindings[k].inbound
    ensures id in db.rows || Owns(db'', id)
  {
    if id == db'.next || id == db'.bindings[k].inbound {
      assert id !in db.rows ==> db''.bindings[k].inbound == id;
    } else {
      assert SameRow(db', db'', id);
      if id !in db.rows {
        var i :| 0 <= i < |db'.bindings| && db'.bindings[i].inbound == id;
        assert db''.bindings[i].inbound == id;
      }
    }
  }

  lemma NoProgress(make: Maker, on: bool, db: Db, envs: nat -> Env)
    requires Owned(db)
    ensures Progress(make, on, db, db, 0, envs)
  {
  }

  /** What holds after any number of turns that went through, whatever the store's faults. */
  lemma {:induction false} SyncProgress(make: Maker, on: bool, db: Db, k: nat, envs: nat -> Env)
    requires Owned(db) && k <= |db.bindings| && SyncUpTo(make, on, db, k, envs).1
    ensures Progress(make, on, db, SyncUpTo(make, on, db, k, envs).0, k, envs)
  {
    hide Progress, SyncOne, Owned;
    if k == 0 {
      NoProgress(make, on, db, envs);
    } else {
      SyncProgress(make, on, db, k - 1, envs);
      TurnProgress(make, on, db, SyncUpTo(make, on, db, k - 1, envs).0, k - 1, envs);
    }
  }

  // ---------- Reconciled ----------

  /** Every binding that is to serve owns a row equal to its node; every other owns none;
      and no row that a binding owned is left without an owner. */
  ghost predicate Reconciled(make: Maker, on: bool, db: Db, db': Db)
    requires |db.bindings| == |db'.bindings|
  {
    && (forall i :: 0 <= i < |db'.bindings| ==> Settled(make, on, db', i))
    && (forall id: nat :: id in db'.rows && Owns(db, id) ==> Owns(db', id))
  }

  ghost predicate Settled(make: Maker, on: bool, db: Db, i: nat)
    requires i < |db.bindings|
  {
    var b := db.bindings[i];
    if Wants(on, b) then b.inbound in db.rows && make(b.details) == Some(db.rows[b.inbound].node) else b.inbound == 0
  }

  /** A fault the sync does not report: a binding that is off whose row or whose change of
      owner could not be written, or a row that is there but could not be read. */
  ghost predicate Silent(on: bool, db: Db, i: nat, env: Env)
    requires i < |db.bindings|
  {
    var b := db.bindings[i];
    if Wants(on, b) then b.inbound in db.rows && !env.readOk
    else b.inbound != 0 && (!env.saveBindingOk || (b.inbound in db.rows && !env.deleteOk))
  }

  /** One binding comes out right exactly when nothing went wrong silently. */
  lemma BindingIff(make: Maker, on: bool, db: Db, db': Db, i: nat, env: Env)
    requires Owned(db) && Owned(db') && i < |db.bindings| == |db'.bindings| && Outcome(make, on, db, db', i, env)
    requires db'.bindings[i] == db.bindings[i].(inbound := db'.bindings[i].inbound)
    requires forall j :: 0 <= j < |db.bindings| && j != i ==>
      db'.bindings[j].inbound == db.bindings[j].inbound || db'.bindings[j].inbound == 0 || db'.bindings[j].inbound >= db.next
    ensures !Silent(on, db, i, env) <==>
      Settled(make, on, db', i) && (db.bindings[i].inbound in db'.rows ==> Owns(db', db.bindings[i].inbound))
  {
    var had := db.bindings[i].inbound;
    if db'.bindings[i].inbound == had {
      assert had != 0 ==> Owns(db', had);
    } else {
      assert !Owns(db', had) by {
        forall j | 0 <= j < |db'.bindings| && had != 0 ensures db'.bindings[j].inbound != had {
          assert j != i ==> db.bindings[j].inbound != had || had == 0;
        }
      }
    }
  }

  lemma InboundIsOldZeroOrNew(make: Maker, on: bool, db: Db, db': Db, i: nat, env: Env)
    requires i < |db.bindings| == |db'.bindings| && Outcome(make, on, db, db', i, env)
    ensures db'.bindings[i].inbound == db.bindings[i].inbound || db'.bindings[i].inbound == 0 || db'.bindings[i].inbound >= db.next
  {
  }

  /** A sync that reports success has reconciled the profile if and only if nothing went
      wrong that it does not report. */
  lemma ReconciledIff(make: Maker, on: bool, db: Db, envs: nat -> Env)
    requires Owned(db) && Sync(make, on, db, envs).1
    ensures Reconciled(make, on, db, Sync(make, on, db, envs).0) <==>
      forall i :: 0 <= i < |db.bindings| ==> !Silent(on, db, i, envs(i))
  {
    SyncProgress(make, on, db, |db.bindings|, envs);
    var db' := Sync(make, on, db, envs).0;
    hide Sync, Silent, Settled;
    forall i | 0 <= i < |db.bindings|
      ensures !Silent(on, db, i, envs(i)) <==> ReconciledAt(make, on, db, db', i)
    {
      ProgressAt(make, on, db, db', i, envs);
    }
    hide Progress, Owned;
    OwnedRows(make, on, db, db');
  }

  /** A binding's part of it. */
  ghost predicate ReconciledAt(make: Maker, on: bool, db: Db, db': Db, i: nat)
    requires i < |db.bindings| == |db'.bindings|
  {
    Settled(make, on, db', i) && (db.bindings[i].inbound != 0 && db.bindings[i].inbound in db'.rows ==> Owns(db', db.bindings[i].inbound))
  }

  lemma OwnedRows(make: Maker, on: bool, db: Db, db': Db)
    requires |db.bindings| == |db'.bindings|
    ensures Reconciled(make, on, db, db') <==> forall i :: 0 <= i < |db.bindings| ==> ReconciledAt(make, on, db, db', i)
  {
    hide Settled;
    if Reconciled(make, on, db, db') {
      forall i | 0 <= i < |db.bindings| ensures ReconciledAt(make, on, db, db', i) {
        assert db.bindings[i].inbound != 0 ==> Owns(db, db.bindings[i].inbound);
      }
    }
    if forall i :: 0 <= i < |db.bindings| ==> ReconciledAt(make, on, db, db', i) {
      forall id: nat | id in db'.rows && Owns(db, id) ensures Owns(db', id) {
        var i :| 0 <= i < |db.bindings| && db.bindings[i].inbound == id;
        assert ReconciledAt(make, on, db, db', i);
      }
      forall i | 0 <= i < |db'.bindings| ensures Settled(make, on, db', i) {
        assert ReconciledAt(make, on, db, db', i);
      }
    }
  }

  lemma ProgressAt(make: Maker, on: bool, db: Db, db': Db, i: nat, envs: nat -> Env)
    requires Owned(db) && Progress(make, on, db, db', |db.bindings|, envs) && i < |db.bindings|
    ensures !Silent(on, db, i, envs(i)) <==> ReconciledAt(make, on, db, db', i)
  {
    hide Outcome, Silent, Settled;
    forall j | 0 <= j < |db.bindings|
      ensures db'.bindings[j].inbound == db.bindings[j].inbound || db'.bindings[j].inbound == 0 || db'.bindings[j].inbound >= db.next
    {
      InboundIsOldZeroOrNew(make, on, db, db', j, envs(j));
    }
    assert 0 !in db'.rows by { ZeroIsFree(db'); }
    BindingIff(make, on, db, db', i, envs(i));
    hide Owned, Progress;
  }

  lemma ForeignTurn(make: Maker, on: bool, db: Db, k: nat, env: Env, id: nat)
    requires Owned(db) && k < |db.bindings| && id < db.next && !Owns(db, id)
    ensures var db' := SyncOne(make, on, db, k, env).0;
      SameRow(db, db', id) && Owned(db') && !Owns(db', id) && db.next <= db'.next
  {
    TurnFrame(make, on, db, k, env);
    TurnOwner(make, on, db, k, env);
    hide SyncOne, Owned;
    assert 0 !in db.rows by { ZeroIsFree(db); }
    var db' := SyncOne(make, on, db, k, env).0;
    assert 0 !in db'.rows by { ZeroIsFree(db'); }
    assert id != 0 ==> db.bindings[k].inbound != id;
    forall i | 0 <= i < |db'.bindings| && id != 0 ensures db'.bindings[i].inbound != id {
      assert db.bindings[i].inbound != id;
    }
  }

  lemma ZeroIsFree(db: Db)
    requires Owned(db)
    ensures 0 !in db.rows
  {
  }

  /** Rows of no binding, other profiles' and the operator's own, are never touched, and
      ownership stays one to one: even when the sync fails half way. */
  lemma {:induction false} ForeignUntouched(make: Maker, on: bool, db: Db, k: nat, envs: nat -> Env, id: nat)
    requires Owned(db) && k <= |db.bindings| && id < db.next && !Owns(db, id)
    ensures var db' := SyncUpTo(make, on, db, k, envs).0;
      SameRow(db, db', id) && Owned(db') && !Owns(db', id) && db.next <= db'.next
  {
    hide SyncOne, Owned, Owns;
    if k > 0 {
      ForeignUntouched(make, on, db, k - 1, envs, id);
      var (db', ok) := SyncUpTo(make, on, db, k - 1, envs);
      if ok {
        ForeignTurn(make, on, db', k - 1, envs(k - 1), id);
      }
    }
  }

  lemma TurnOwner(make: Maker, on: bool, db: Db, k: nat, env: Env)
    requires Owned(db) && k < |db.bindings|
    ensures var b' := SyncOne(make, on, db, k, env).0.bindings[k];
      b'.inbound == db.bindings[k].inbound || b'.inbound == 0 || b'.inbound == db.next
  {
  }

  // ---------- The fixed point ----------

  /** A reconciled profile is left exactly as it is by another sync, which creates
      nothing, as long as the rows can be read and written. */
  lemma {:induction false} SettledIsFixed(make: Maker, on: bool, db: Db, k: nat, envs: nat -> Env)
    requires k <= |db.bindings| && Owned(db)
    requires forall i :: 0 <= i < k ==> Settled(make, on, db, i) && envs(i).readOk && envs(i).saveRowOk
    ensures SyncUpTo(make, on, db, k, envs) == (db, true)
  {
    if k > 0 {
      SettledIsFixed(make, on, db, k - 1, envs);
      var b := db.bindings[k - 1];
      assert Settled(make, on, db, k - 1);
      if Wants(on, b) {
        var row := db.rows[b.inbound];
        assert row.(node := row.node) == row;
        assert db.rows[b.inbound := row] == db.rows;
      }
    }
  }

  /** The whole law: from any state, owned rows deleted by others or not, a sync that meets
      no fault either reports a binding it cannot materialise or reconciles the profile for
      good: a second one changes nothing. */
  lemma SyncReachesFixedPoint(make: Maker, on: bool, db: Db, envs: nat -> Env, again: nat -> Env)
    requires Owned(db)
    requires forall i :: 0 <= i < |db.bindings| ==>
      envs(i) == NO_FAULT && again(i).readOk && again(i).saveRowOk
    ensures var (db', ok) := Sync(make, on, db, envs);
      && (ok <==> forall i :: 0 <= i < |db.bindings| && Wants(on, db.bindings[i]) ==> make(db.bindings[i].details).Some?)
      && (ok ==> Reconciled(make, on, db, db') && Sync(make, on, db', again) == (db', true))
  {
    OkIff(make, on, db, |db.bindings|, envs);
    if Sync(make, on, db, envs).1 {
      ReconciledIff(make, on, db, envs);
      SyncProgress(make, on, db, |db.bindings|, envs);
      SettledIsFixed(make, on, Sync(make, on, db, envs).0, |db.bindings|, again);
    }
  }

  const NO_FAULT := Env(true, true, true, true, true)

  lemma {:induction false} StillAhead(make: Maker, on: bool, db: Db, k: nat, envs: nat -> Env, i: nat)
    requires k <= i < |db.bindings|
    ensures SyncUpTo(make, on, db, k, envs).0.bindings[i] == db.bindings[i]
  {
    hide SyncOne;
    if k > 0 {
      StillAhead(make, on, db, k - 1, envs, i);
      OneKeepsOthers(make, on, SyncUpTo(make, on, db, k - 1, envs).0, k - 1, envs(k - 1));
    }
  }

  lemma TurnOkIff(make: Maker, on: bool, db: Db, k: nat)
    requires k < |db.bindings|
    ensures SyncOne(make, on, db, k, NO_FAULT).1 <==>
      (Wants(on, db.bindings[k]) ==> make(db.bindings[k].details).Some?)
  {
  }

  lemma {:induction false} OkIff(make: Maker, on: bool, db: Db, k: nat, envs: nat -> Env)
    requires k <= |db.bindings| && forall i :: 0 <= i < |db.bindings| ==> envs(i) == NO_FAULT
    ensures SyncUpTo(make, on, db, k, envs).1 <==>
      forall i :: 0 <= i < k && Wants(on, db.bindings[i]) ==> make(db.bindings[i].details).Some?
  {
    hide SyncOne;
    if k > 0 {
      OkIff(make, on, db, k - 1, envs);
      StillAhead(make, on, db, k - 1, envs, k - 1);
      TurnOkIff(make, on, SyncUpTo(make, on, db, k - 1, envs).0, k - 1);
    }
  }

  // ---------- A sync that fails ----------

  /** The first binding that is to serve and cannot be materialised. */
  ghost predicate FailsAt(make: Maker, on: bool, db: Db, k: nat) {
    && k < |db.bindings| && Wants(on, db.bindings[k]) && make(db.bindings[k].details).None?
    && forall i :: 0 <= i < k && Wants(on, db.bindings[i]) ==> make(db.bindings[i].details).Some?
  }

  lemma FailsThere(make: Maker, on: bool, db: Db, k: nat, envs: nat -> Env)
    requires FailsAt(make, on, db, k) && forall i :: 0 <= i < |db.bindings| ==> envs(i) == NO_FAULT
    ensures SyncUpTo(make, on, db, k, envs).1
    ensures Sync(make, on, db, envs) == (SyncUpTo(make, on, db, k, envs).0, false)
  {
    hide SyncOne;
    OkIff(make, on, db, k, envs);
    OkIff(make, on, db, k + 1, envs);
    StillAhead(make, on, db, k, envs, k);
    NothingMade(make, on, SyncUpTo(make, on, db, k, envs).0, k, envs(k));
    FailureStops(make, on, db, k + 1, |db.bindings|, envs);
  }

  lemma NothingMade(make: Maker, on: bool, db: Db, k: nat, env: Env)
    requires k < |db.bindings| && Wants(on, db.bindings[k]) && make(db.bindings[k].details).None?
    ensures SyncOne(make, on, db, k, env) == (db, false)
  {
  }

  lemma OutcomeSettles(make: Maker, on: bool, db: Db, i: nat)
    requires i < |db.bindings| && Outcome(make, on, db, db, i, NO_FAULT)
    ensures Settled(make, on, db, i)
  {
  }

  /** With no store fault at all, a sync that fails is all or nothing if and only if every
      binding before the one it fails at was reconciled already. */
  lemma FailedSyncIff(make: Maker, on: bool, db: Db, k: nat, envs: nat -> Env)
    requires Owned(db) && FailsAt(make, on, db, k) && forall i :: 0 <= i < |db.bindings| ==> envs(i) == NO_FAULT
    ensures !Sync(make, on, db, envs).1
    ensures Sync(make, on, db, envs).0 == db <==> forall i :: 0 <= i < k ==> Settled(make, on, db, i)
  {
    FailsThere(make, on, db, k, envs);
    if forall i :: 0 <= i < k ==> Settled(make, on, db, i) {
      SettledIsFixed(make, on, db, k, envs);
    }
    if Sync(make, on, db, envs).0 == db {
      SyncProgress(make, on, db, k, envs);
      assert Progress(make, on, db, db, k, envs);
      hide Sync, SyncUpTo, Outcome, Settled;
      forall i | 0 <= i < k ensures Settled(make, on, db, i) {
        assert Outcome(make, on, db, db, i, envs(i));
        OutcomeSettles(make, on, db, i);
      }
    }
  }

  /** Two bindings, the second without a usable port: the sync fails, and the first row has
      been rewritten. */
  lemma HalfApplied(was: Node, now: Node, envs: nat -> Env)
    requires was != now && forall i :: 0 <= i < 2 ==> envs(i) == NO_FAULT
    ensures var make := (d: Details) => if d.port == 0 then None else Some(now);
      var db := Db(map[1 := Row(true, was)], [Binding(true, Details(1, 443, ""), 1), Binding(true, Details(2, 0, ""), 0)], 2);
      Sync(make, true, db, envs) == (db.(rows := map[1 := Row(true, now)]), false)
  {
    var make := (d: Details) => if d.port == 0 then None else Some(now);
    var db := Db(map[1 := Row(true, was)], [Binding(true, Details(1, 443, ""), 1), Binding(true, Details(2, 0, ""), 0)], 2);
    FailsThere(make, true, db, 1, envs);
    assert SyncUpTo(make, true, db, 0, envs) == (db, true);
    assert map[1 := Row(true, was)][1 := Row(true, now)] == map[1 := Row(true, now)];
  }

  // ---------- With the profile's own materialisation ----------

  function MakerOf(t: Node, profile: string, names: map<nat, string>, rules: Rules): Maker {
    (d: Details) => Materialise(t, profile, names, rules, d)
  }

  /** A port in range, from the binding or else the template, an address to bind and a
      definition that passes validation. */
  predicate Usable(t: Node, profile: string, names: map<nat, string>, rules: Rules, d: Details) {
    && 0 < (if d.port > 0 then d.port else t.port) <= 65535
    && rules.bindable(t.address) && rules.valid(rules.normal(Drafted(t, profile, names, d)))
  }

  /** The parts of a node no binding may set. */
  predicate SameDefinition(n: Node, t: Node) {
    n.address == t.address && n.body == t.body
  }

  lemma MaterialisesIff(t: Node, profile: string, names: map<nat, string>, rules: Rules, d: Details)
    requires forall n :: SameDefinition(rules.normal(n), n)
    ensures Materialise(t, profile, names, rules, d).Some? <==> Usable(t, profile, names, rules, d)
    ensures Materialise(t, profile, names, rules, d).Some? ==> SameDefinition(Materialise(t, profile, names, rules, d).value, t)
  {
    hide RemarkFor;
  }

  /** A profile's sync, when defaulting leaves a definition alone: it succeeds exactly when
      every binding that is to serve is usable; then all their rows carry one definition,
      the template's; and doing it again changes nothing. */
  lemma ProfileReachesFixedPoint(t: Node, profile: string, names: map<nat, string>, rules: Rules, on: bool, db: Db,
                                 envs: nat -> Env, again: nat -> Env)
    requires Owned(db) && forall n :: SameDefinition(rules.normal(n), n)
    requires forall i :: 0 <= i < |db.bindings| ==>
      envs(i) == NO_FAULT && again(i).readOk && again(i).saveRowOk
    ensures var make := MakerOf(t, profile, names, rules);
      var (db', ok) := Sync(make, on, db, envs);
      && (ok <==> forall i :: 0 <= i < |db.bindings| && Wants(on, db.bindings[i]) ==>
            Usable(t, profile, names, rules, db.bindings[i].details))
      && (ok ==> forall i :: 0 <= i < |db'.bindings| && Wants(on, db'.bindings[i]) ==>
            && db'.bindings[i].inbound in db'.rows
            && db'.rows[db'.bindings[i].inbound].node.address == t.address && db'.rows[db'.bindings[i].inbound].node.body == t.body)
      && (ok ==> Sync(make, on, db', again) == (db', true))
  {
    var make := MakerOf(t, profile, names, rules);
    SyncReachesFixedPoint(make, on, db, envs, again);
    forall i | 0 <= i < |db.bindings|
      ensures make(db.bindings[i].details).Some? <==> Usable(t, profile, names, rules, db.bindings[i].details)
    {
      MaterialisesIff(t, profile, names, rules, db.bindings[i].details);
    }
    var (db', ok) := Sync(make, on, db, envs);
    hide Sync, Materialise, Usable;
    if ok {
      forall i | 0 <= i < |db'.bindings| && Wants(on, db'.bindings[i])
        ensures db'.bindings[i].inbound in db'.rows && SameDefinition(db'.rows[db'.bindings[i].inbound].node, t)
      {
        assert Settled(make, on, db', i);
        MaterialisesIff(t, profile, names, rules, db'.bindings[i].details);
      }
    }
  }

  // ---------- What a binding sets ----------

  /** The template with what the binding sets: its port and public name, where it gives them;
      the remark, which names profile and node; and no tag. */
  predicate DraftSays(n: Node, t: Node, profile: string, names: map<nat, string>, d: Details) {
    && (d.port > 0 ==> n.port == d.port) && (d.port <= 0 ==> n.port == t.port)
    && (|d.publicHost| > 0 ==> n.domain == d.publicHost) && (|d.publicHost| == 0 ==> n.domain == t.domain)
    && n.address == t.address && n.body == t.body && |n.tag| == 0
    && (if d.nodeId in names && |names[d.nodeId]| > 0 then n.remark == TrimSpace(profile) + (" @ " + names[d.nodeId])
        else n.remark == TrimSpace(profile) + (" @ node-" + Itoa(d.nodeId)))
  }

  /** A binding is materialised exactly when its port is one, its listen address can be bound
      and the node is valid; and then it is that draft, normalised. */
  lemma MaterialisedIff(t: Node, profile: string, names: map<nat, string>, rules: Rules, d: Details, draft: Node, n: Node)
    requires DraftSays(draft, t, profile, names, d)
    ensures Materialise(t, profile, names, rules, d) == Some(n) <==>
      1 <= draft.port <= 65535 && rules.bindable(draft.address) && n == rules.normal(draft) && rules.valid(n)
  {
    DraftIs(t, profile, names, d, draft);
    hide Drafted;
  }

  lemma DraftIs(t: Node, profile: string, names: map<nat, string>, d: Details, draft: Node)
    requires DraftSays(draft, t, profile, names, d)
    ensures draft == Drafted(t, profile, names, d)
  {
    hide TrimSpace, Itoa;
    Named(TrimSpace(profile), if d.nodeId in names then names[d.nodeId] else "");
    Named(TrimSpace(profile), "node-" + Itoa(d.nodeId));
    assert " @ " + ("node-" + Itoa(d.nodeId)) == " @ node-" + Itoa(d.nodeId);
  }

  lemma Named(profile: string, name: string)
    ensures profile + " @ " + name == profile + (" @ " + name)
  {
  }

  // ---------- The rows a sync leaves ----------

  /** After a sync that meets no fault a row that was there has the binding's node and is as
      enabled as it was; a row it had to make is enabled; and a binding that is not to serve
      has none. */
  lemma SyncedRows(make: Maker, on: bool, db: Db, envs: nat -> Env, i: nat)
    requires Owned(db) && i < |db.bindings| && (forall k :: 0 <= k < |db.bindings| ==> envs(k) == NO_FAULT)
    requires Sync(make, on, db, envs).1
    ensures var (db', _) := Sync(make, on, db, envs);
      var b, owner := db.bindings[i], db'.bindings[i].inbound;
      && db'.bindings[i] == b.(inbound := owner)
      && (!(b.enabled && on) ==> owner == 0 && b.inbound !in db'.rows)
      && (b.enabled && on ==>
            && make(b.details).Some?
            && (b.inbound in db.rows ==> owner == b.inbound && owner in db'.rows && db'.rows[owner] == Row(db.rows[owner].enabled, make(b.details).value))
            && (b.inbound !in db.rows ==> owner >= db.next && owner in db'.rows && db'.rows[owner] == Row(true, make(b.details).value)))
  {
    SyncProgress(make, on, db, |db.bindings|, envs);
    hide Sync;
    var db' := Sync(make, on, db, envs).0;
    assert Outcome(make, on, db, db', i, envs(i));
    hide Owned;
  }

  /** What a store that fails leaves of a turn that has something to write: a row that cannot
      be saved, or made, is as it was; one that is made but cannot be recorded on the binding
      stays, owned by nobody.  All three end the sync. */
  lemma TurnFaults(make: Maker, on: bool, db: Db, i: nat, env: Env)
    requires i < |db.bindings| && db.bindings[i].enabled && on && make(db.bindings[i].details).Some?
    ensures var b, n := db.bindings[i], make(db.bindings[i].details).value;
      var found := b.inbound != 0 && env.readOk && b.inbound in db.rows;
      var (db', ok) := SyncOne(make, on, db, i, env);
      && (ok <==> if found then env.saveRowOk else env.createOk && env.saveBindingOk)
      && (found && !env.saveRowOk ==> db' == db)
      && (!found && !env.createOk ==> db' == db)
      && (!found && env.createOk && !env.saveBindingOk ==>
            db'.bindings == db.bindings && db'.rows == db.rows[db.next := Row(true, n)] && db'.next == db.next + 1)
  {
  }

  /** A binding that is off ends nothing: its row goes if it can be deleted, and it is recorded
      as owning none if that can be saved. */
  lemma TurnOff(make: Maker, on: bool, db: Db, i: nat, env: Env)
    requires i < |db.bindings| && !(db.bindings[i].enabled && on)
    ensures var b := db.bindings[i];
      var (db', ok) := SyncOne(make, on, db, i, env);
      && ok && db'.next == db.next
      && (b.inbound == 0 ==> db' == db)
      && (b.inbound != 0 ==> db'.rows == (if env.deleteOk then db.rows - {b.inbound} else db.rows))
      && (b.inbound != 0 ==> db'.bindings == if env.saveBindingOk then db.bindings[i := b.(inbound := 0)] else db.bindings)
  {
  }
}
