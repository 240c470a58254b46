/** Applying a config to a supervised core: write a sibling temporary file, have the core
    validate it, rename it into place, then hot-apply or restart.  Every step can fail. */
module EngineSupervisor {

  import opened Wrappers

  // ---------- The temporary file's name ----------

  /** The extension of the last path element, dot included. */
  function Ext(path: string): string {
    if path == [] || path[|path| - 1] == '/' then ""
    else if path[|path| - 1] == '.' then "."
    else
      var e := Ext(path[..|path| - 1]);
      if e == "" then "" else e + [path[|path| - 1]]
  }

  function TempPath(path: string): (tmp: string)
    ensures |tmp| == |path| + 4
  {
    ExtIsSuffix(path);
    var e := Ext(path);
    if e == "" then path + ".tmp" else path[..|path| - |e|] + ".tmp" + e
  }

  lemma {:induction false} ExtIsSuffix(path: string)
    ensures |Ext(path)| <= |path| && path[|path| - |Ext(path)|..] == Ext(path)
    ensures Ext(path) != "" ==> Ext(path)[0] == '.'
    ensures forall i :: 1 <= i < |Ext(path)| ==> Ext(path)[i] != '.'
    ensures '/' !in Ext(path)
    decreases |path|
  {
    if path != [] {
      ExtIsSuffix(path[..|path| - 1]);
    }
  }

  /** A suffix that starts with the only dot and holds no separator is the extension. */
  lemma {:induction false} ExtOf(base: string, e: string)
    requires e != "" && e[0] == '.' && '/' !in e && forall i :: 1 <= i < |e| ==> e[i] != '.'
    ensures Ext(base + e) == e
    decreases |e|
  {
    var n := |e| - 1;
    assert (base + e)[..|base + e| - 1] == base + e[..n];
    if n > 0 {
      ExtOf(base, e[..n]);
      assert e[..n] + [e[n]] == e;
    } else {
      assert e == ".";
    }
  }

  /** The core infers a config's format from its extension, so the temporary file keeps
      it; and it is another file. */
  lemma TempKeepsExtension(path: string)
    ensures Ext(path) != "" ==> Ext(TempPath(path)) == Ext(path)
    ensures TempPath(path) != path
  {
    ExtIsSuffix(path);
    var e := Ext(path);
    if e != "" {
      ExtOf(path[..|path| - |e|] + ".tmp", e);
    }
  }

  // ---------- One core ----------

  datatype Fault =
    | NoFault
    | WriteFailed
    | Rejected(words: string)
    | CommitFailed
    | NoBinary
    | StartFailed

  /** What the agent knows of one core before it runs: where its config lives, whether
      its binary is here, whether it can take a change while running. */
  datatype Engine = Engine(path: string, binary: bool, canHotApply: bool)

  /** The supervised core.  `serving` is the config the running process serves, and
      `validated` every config its validator accepted. */
  datatype Proc = Proc(lastCfg: string, serving: Option<string>, startedAt: Option<int>, lastErr: Fault, validated: set<string>)

  datatype Hot = Applied | NotApplied | HotFailed

  /** How everything outside the agent turns out during one apply.  A failed write may
      leave anything, or nothing, in the temporary file. */
  datatype Env = Env(
    writeOk: bool, torn: Option<string>, testOk: bool, words: string, renameOk: bool, removeOk: bool,
    hot: Hot, startOk: bool, now: int)

  type Files = map<string, string>

  function Stopped(p: Proc): Proc {
    p.(serving := None, startedAt := None)
  }

  function Remove(files: Files, path: string, ok: bool): Files {
    if ok then files - {path} else files
  }

  /** The config reached the file it is run from. */
  predicate Commits(e: Engine, env: Env) {
    env.writeOk && (e.binary ==> env.testOk) && env.renameOk
  }

  /** What a rejected or uncommittable config leaves behind. */
  function Refuse(e: Engine, p: Proc, files: Files, cfg: string, env: Env): (Proc, Files)
    requires !Commits(e, env)
  {
    var tmp := TempPath(e.path);
    if !env.writeOk then
      (p.(lastErr := WriteFailed), match env.torn case Some(t) => files[tmp := t] case None => files)
    else if e.binary && !env.testOk then
      (p.(lastErr := Rejected(env.words)), Remove(files[tmp := cfg], tmp, env.removeOk))
    else
      (p.(lastErr := CommitFailed, validated := if e.binary then p.validated + {cfg} else p.validated),
       Remove(files[tmp := cfg], tmp, env.removeOk))
  }

  predicate HotApplies(e: Engine, p: Proc, env: Env) {
    e.binary && p.serving.Some? && e.canHotApply && env.hot.Applied?
  }

  /** The committed config is handed to the core. */
  function Launch(e: Engine, p: Proc, cfg: string, env: Env): Proc {
    var q := p.(lastCfg := cfg, validated := if e.binary then p.validated + {cfg} else p.validated);
    if HotApplies(e, p, env) then q.(serving := Some(cfg), lastErr := NoFault)
    else if !e.binary then Stopped(q).(lastErr := NoBinary)
    else if env.startOk then Stopped(q).(serving := Some(cfg), startedAt := Some(env.now), lastErr := NoFault)
    else Stopped(q).(startedAt := Some(env.now), lastErr := StartFailed)
  }

  function ApplyConfig(e: Engine, p: Proc, files: Files, cfg: string, env: Env): (Proc, Files) {
    if cfg == p.lastCfg then (p, files)
    else if cfg == "" then (Stopped(p).(lastCfg := ""), Remove(files, e.path, env.removeOk))
    else if !Commits(e, env) then Refuse(e, p, files, cfg, env)
    else (Launch(e, p, cfg, env), (files - {TempPath(e.path)})[e.path := cfg])
  }

  class Disk {
    var files: Files

    constructor (found: Files)
      ensures files == found
    {
      files := found;
    }
  }

  class EngineProc {
    const spec: Engine
    var lastCfg: string
    var cmd: Option<string>
    var startedAt: Option<int>
    var lastErr: Fault
    ghost var validated: set<string>

    ghost function View(): Proc
      reads this
    {
      Proc(lastCfg, cmd, startedAt, lastErr, validated)
    }

    constructor (spec: Engine)
      ensures this.spec == spec && View() == Proc("", None, None, NoFault, {})
    {
      this.spec := spec;
      lastCfg, cmd, startedAt, lastErr, validated := "", None, None, NoFault, {};
    }

    method Fail(why: Fault)
      modifies this`lastErr
      ensures lastErr == why
    {
      lastErr := why;
    }

    method Stop()
      modifies this`cmd, this`startedAt
      ensures View() == Stopped(old(View()))
    {
      cmd, startedAt := None, None;
    }

    predicate Running()
      reads this
    {
      cmd.Some?
    }

    /** The source's steps, in the source's order. */
    method Apply(disk: Disk, cfg: string, env: Env)
      modifies this, disk
      ensures (View(), disk.files) == ApplyConfig(spec, old(View()), old(disk.files), cfg, env)
    {
      if cfg == lastCfg {
        return;
      }
      if cfg == "" {
        Stop();
        disk.files := Remove(disk.files, spec.path, env.removeOk);
        lastCfg := "";
        return;
      }
      var tmp := TempPath(spec.path);
      if !env.writeOk {
        if env.torn.Some? {
          disk.files := disk.files[tmp := env.torn.value];
        }
        Fail(WriteFailed);
        return;
      }
      disk.files := disk.files[tmp := cfg];
      if spec.binary {
        if !env.testOk {
          Fail(Rejected(env.words));
          disk.files := Remove(disk.files, tmp, env.removeOk);
          return;
        }
        validated := validated + {cfg};
      }
      if !env.renameOk {
        Fail(CommitFailed);
        disk.files := Remove(disk.files, tmp, env.removeOk);
        return;
      }
      TempKeepsExtension(spec.path);
      ghost var before := old(disk.files);
      assert before[tmp := cfg] - {tmp} == before - {tmp};
      disk.files := (disk.files - {tmp})[spec.path := disk.files[tmp]];
      lastCfg := cfg;
      if spec.binary && Running() && spec.canHotApply {
        if env.hot.Applied? {
          cmd := Some(cfg);
          lastErr := NoFault;
          return;
        }
      }
      Stop();
      if !spec.binary {
        Fail(NoBinary);
        return;
      }
      startedAt := Some(env.now);
      if !env.startOk {
        Fail(StartFailed);
        return;
      }
      cmd := Some(disk.files[spec.path]);
      lastErr := NoFault;
    }
  }

  // ---------- What holds over every run ----------

  /** A supervised core serves the config on record, and that is what its file holds. */
  ghost predicate InStep(e: Engine, p: Proc, files: Files) {
    p.serving.Some? ==>
      && e.binary && p.lastCfg != ""
      && p.serving.value == p.lastCfg
      && e.path in files && files[e.path] == p.lastCfg
  }

  /** With a binary, nothing the validator did not accept is on record, nor in the file
      unless it was there when the agent started. */
  ghost predicate OnlyValidated(e: Engine, p: Proc, files: Files, found: Files) {
    e.binary ==>
      && (p.lastCfg != "" ==> p.lastCfg in p.validated)
      && (e.path in files ==> files[e.path] in p.validated || (e.path in found && files[e.path] == found[e.path]))
  }

  /** The agent's cores share a disk; their files and temporary files are all different. */
  ghost predicate Apart(engines: seq<Engine>) {
    forall i, j :: 0 <= i < |engines| && 0 <= j < |engines| ==>
      && engines[i].path != TempPath(engines[j].path)
      && (i != j ==> engines[i].path != engines[j].path && TempPath(engines[i].path) != TempPath(engines[j].path))
  }

  datatype Node = Node(procs: seq<Proc>, files: Files)

  ghost predicate NodeOk(engines: seq<Engine>, n: Node, found: Files) {
    && |n.procs| == |engines|
    && forall i :: 0 <= i < |engines| ==>
         InStep(engines[i], n.procs[i], n.files) && OnlyValidated(engines[i], n.procs[i], n.files, found)
  }

  /** One engine's share of a heartbeat. */
  datatype Turn = Turn(engine: nat, cfg: string, env: Env)

  function TakeTurn(engines: seq<Engine>, n: Node, t: Turn): Node
    requires |n.procs| == |engines|
  {
    if t.engine < |engines| then
      var (p, files) := ApplyConfig(engines[t.engine], n.procs[t.engine], n.files, t.cfg, t.env);
      Node(n.procs[t.engine := p], files)
    else n
  }

  function Run(engines: seq<Engine>, n: Node, turns: seq<Turn>): (r: Node)
    requires |n.procs| == |engines|
    ensures |r.procs| == |engines|
    decreases |turns|
  {
    if turns == [] then n else Run(engines, TakeTurn(engines, n, turns[0]), turns[1..])
  }

  /** Applying touches two files and no other. */
  lemma ApplyTouches(e: Engine, p: Proc, files: Files, cfg: string, env: Env, path: string)
    requires path != e.path && path != TempPath(e.path)
    ensures var files' := ApplyConfig(e, p, files, cfg, env).1;
      (path in files' <==> path in files) && (path in files ==> files'[path] == files[path])
  {
  }

  lemma ApplyKeeps(e: Engine, p: Proc, files: Files, cfg: string, env: Env, found: Files)
    requires InStep(e, p, files) && OnlyValidated(e, p, files, found)
    ensures var (p', files') := ApplyConfig(e, p, files, cfg, env);
      InStep(e, p', files') && OnlyValidated(e, p', files', found)
  {
    TempKeepsExtension(e.path);
  }

  lemma TurnKeeps(engines: seq<Engine>, n: Node, t: Turn, found: Files)
    requires Apart(engines) && NodeOk(engines, n, found)
    ensures NodeOk(engines, TakeTurn(engines, n, t), found)
  {
    if t.engine < |engines| {
      var k := t.engine;
      var n' := TakeTurn(engines, n, t);
      ApplyKeeps(engines[k], n.procs[k], n.files, t.cfg, t.env, found);
      forall i | 0 <= i < |engines|
        ensures InStep(engines[i], n'.procs[i], n'.files) && OnlyValidated(engines[i], n'.procs[i], n'.files, found)
      {
        if i != k {
          ApplyTouches(engines[k], n.procs[k], n.files, t.cfg, t.env, engines[i].path);
        }
      }
    }
  }

  /** Transactional over every run: whatever configs arrive and whatever fails, every
      core that runs serves the config on record and on disk, and with a binary nothing
      unvalidated was ever committed. */
  lemma {:induction false} RunKeeps(engines: seq<Engine>, n: Node, turns: seq<Turn>, found: Files)
    requires Apart(engines) && NodeOk(engines, n, found)
    ensures NodeOk(engines, Run(engines, n, turns), found)
    decreases |turns|
  {
    if turns != [] {
      TurnKeeps(engines, n, turns[0], found);
      RunKeeps(engines, TakeTurn(engines, n, turns[0]), turns[1..], found);
    }
  }

  /** The two engines the agent has, in one data directory, are apart. */
  function Shipped(dir: string, xray: bool, singbox: bool): seq<Engine> {
    [Engine(dir + "/node-xray.json", xray, true), Engine(dir + "/node-singbox.json", singbox, false)]
  }

  lemma ShippedApart(dir: string, xray: bool, singbox: bool)
    ensures Apart(Shipped(dir, xray, singbox))
  {
    var x, s := Shipped(dir, xray, singbox)[0].path, Shipped(dir, xray, singbox)[1].path;
    assert |x| == |dir| + 15 && |s| == |dir| + 18;
    assert |TempPath(x)| == |dir| + 19 && |TempPath(s)| == |dir| + 22;
    hide TempPath;
  }

  /** From a fresh agent on any disk. */
  lemma AgentRuns(dir: string, xray: bool, singbox: bool, found: Files, turns: seq<Turn>, i: nat)
    requires i < 2
    ensures var engines := Shipped(dir, xray, singbox);
      var n := Run(engines, Node([Proc("", None, None, NoFault, {}), Proc("", None, None, NoFault, {})], found), turns);
      InStep(engines[i], n.procs[i], n.files) && OnlyValidated(engines[i], n.procs[i], n.files, found)
  {
    ShippedApart(dir, xray, singbox);
    RunKeeps(Shipped(dir, xray, singbox),
      Node([Proc("", None, None, NoFault, {}), Proc("", None, None, NoFault, {})], found), turns, found);
  }

  // ---------- One apply ----------

  /** A config that is refused changes what is reported and nothing else: not what runs,
      not what is on record, not the committed file. */
  lemma RefusedChangesNothing(e: Engine, p: Proc, files: Files, cfg: string, env: Env)
    requires cfg != "" && cfg != p.lastCfg && !Commits(e, env)
    ensures var (p', files') := ApplyConfig(e, p, files, cfg, env);
      && p'.lastErr != NoFault
      && p'.(lastErr := p.lastErr, validated := p.validated) == p
      && (e.path in files' <==> e.path in files)
      && (e.path in files ==> files'[e.path] == files[e.path])
  {
    TempKeepsExtension(e.path);
  }

  /** A config that did not come up is tried again by the next identical heartbeat if and
      only if it was never committed: once on record it counts as applied. */
  lemma RetriedIff(e: Engine, p: Proc, files: Files, cfg: string, env: Env, again: Env)
    requires cfg != "" && cfg != p.lastCfg && e.binary && InStep(e, p, files)
    requires ApplyConfig(e, p, files, cfg, env).0.serving != Some(cfg)
    requires Commits(e, again) && again.startOk
    ensures var (p', files') := ApplyConfig(e, p, files, cfg, env);
      ApplyConfig(e, p', files', cfg, again).0.serving == Some(cfg) <==> !Commits(e, env)
  {
    TempKeepsExtension(e.path);
  }

  // ---------- Runs of refused configs ----------

  ghost predicate Refused(engines: seq<Engine>, t: Turn) {
    t.engine < |engines| ==> t.cfg != "" && !Commits(engines[t.engine], t.env)
  }

  /** Nothing but the reported fault of a core, and what its validator once accepted. */
  ghost predicate Undisturbed(e: Engine, p: Proc, files: Files, p': Proc, files': Files) {
    && p'.(lastErr := p.lastErr, validated := p.validated) == p
    && (e.path in files' <==> e.path in files) && (e.path in files ==> files'[e.path] == files[e.path])
  }

  ghost predicate NodeUndisturbed(engines: seq<Engine>, n: Node, n': Node) {
    && |n.procs| == |n'.procs| == |engines|
    && forall i :: 0 <= i < |engines| ==> Undisturbed(engines[i], n.procs[i], n.files, n'.procs[i], n'.files)
  }

  lemma RefusedTurn(engines: seq<Engine>, n: Node, t: Turn)
    requires Apart(engines) && |n.procs| == |engines| && Refused(engines, t)
    ensures NodeUndisturbed(engines, n, TakeTurn(engines, n, t))
  {
    if t.engine < |engines| {
      var k, n' := t.engine, TakeTurn(engines, n, t);
      if t.cfg != n.procs[k].lastCfg {
        RefusedChangesNothing(engines[k], n.procs[k], n.files, t.cfg, t.env);
      }
      forall i | 0 <= i < |engines| ensures Undisturbed(engines[i], n.procs[i], n.files, n'.procs[i], n'.files) {
        if i != k {
          ApplyTouches(engines[k], n.procs[k], n.files, t.cfg, t.env, engines[i].path);
        }
      }
    }
  }

  /** Whatever refused or uncommittable configs a node is sent, for however long, no core is
      restarted or stopped, none changes config, and no committed file is touched. */
  lemma {:induction false} RefusedRun(engines: seq<Engine>, n: Node, turns: seq<Turn>)
    requires Apart(engines) && |n.procs| == |engines|
    requires forall i :: 0 <= i < |turns| ==> Refused(engines, turns[i])
    ensures NodeUndisturbed(engines, n, Run(engines, n, turns))
    decreases |turns|
  {
    if turns != [] {
      var n' := TakeTurn(engines, n, turns[0]);
      RefusedTurn(engines, n, turns[0]);
      RefusedRun(engines, n', turns[1..]);
      hide Refused, TakeTurn, Apart;
      var r := Run(engines, n', turns[1..]);
      forall i | 0 <= i < |engines| ensures Undisturbed(engines[i], n.procs[i], n.files, r.procs[i], r.files) {
        assert Undisturbed(engines[i], n.procs[i], n.files, n'.procs[i], n'.files);
        assert Undisturbed(engines[i], n'.procs[i], n'.files, r.procs[i], r.files);
      }
    }
  }

  // ---------- How long a fault is reported ----------

  /** The turn brings up a new config of core `i`. */
  ghost predicate ComesUp(engines: seq<Engine>, n: Node, t: Turn, i: nat)
    requires |n.procs| == |engines|
  {
    && i < |engines| && t.engine == i && t.cfg != "" && t.cfg != n.procs[i].lastCfg
    && engines[i].binary && Commits(engines[i], t.env) && (HotApplies(engines[i], n.procs[i], t.env) || t.env.startOk)
  }

  lemma TurnClearsIff(engines: seq<Engine>, n: Node, t: Turn, i: nat)
    requires i < |engines| == |n.procs| && n.procs[i].lastErr != NoFault
    ensures TakeTurn(engines, n, t).procs[i].lastErr == NoFault <==> ComesUp(engines, n, t, i)
  {
  }

  lemma {:induction false} RunLast(engines: seq<Engine>, n: Node, turns: seq<Turn>, m: nat)
    requires |n.procs| == |engines| && m < |turns|
    ensures Run(engines, n, turns[..m + 1]) == TakeTurn(engines, Run(engines, n, turns[..m]), turns[m])
    decreases m
  {
    assert turns[..m + 1][0] == turns[0] && turns[..m + 1][1..] == turns[1..][..m];
    if m > 0 {
      assert turns[..m][0] == turns[0] && turns[..m][1..] == turns[1..][..m - 1];
      RunLast(engines, TakeTurn(engines, n, turns[0]), turns[1..], m - 1);
    } else {
      assert turns[..1][1..] == [];
    }
  }

  ghost function Reported(engines: seq<Engine>, n: Node, turns: seq<Turn>, m: nat, i: nat): Fault
    requires i < |engines| == |n.procs| && m <= |turns|
  {
    Run(engines, n, turns[..m]).procs[i].lastErr
  }

  lemma {:induction false} ReportedUntil(engines: seq<Engine>, n: Node, turns: seq<Turn>, i: nat, m: nat)
    requires i < |engines| == |n.procs| && n.procs[i].lastErr != NoFault && m <= |turns|
    requires forall k :: 0 <= k < m ==> !ComesUp(engines, Run(engines, n, turns[..k]), turns[k], i)
    ensures Reported(engines, n, turns, m, i) != NoFault
  {
    hide TakeTurn, ComesUp;
    if m > 0 {
      ReportedUntil(engines, n, turns, i, m - 1);
      RunLast(engines, n, turns, m - 1);
      TurnClearsIff(engines, Run(engines, n, turns[..m - 1]), turns[m - 1], i);
    }
  }

  /** Over every run a core's fault goes on being reported if and only if no new config of
      that core comes up: refused configs, and the empty one that stops it, do not clear it. */
  lemma FaultLastsIff(engines: seq<Engine>, n: Node, turns: seq<Turn>, i: nat)
    requires i < |engines| == |n.procs| && n.procs[i].lastErr != NoFault
    ensures (forall m :: 0 <= m <= |turns| ==> Reported(engines, n, turns, m, i) != NoFault) <==>
      forall m :: 0 <= m < |turns| ==> !ComesUp(engines, Run(engines, n, turns[..m]), turns[m], i)
  {
    hide TakeTurn, ComesUp, Run;
    if forall m :: 0 <= m < |turns| ==> !ComesUp(engines, Run(engines, n, turns[..m]), turns[m], i) {
      forall m | 0 <= m <= |turns| ensures Reported(engines, n, turns, m, i) != NoFault {
        ReportedUntil(engines, n, turns, i, m);
      }
    }
    if forall m :: 0 <= m <= |turns| ==> Reported(engines, n, turns, m, i) != NoFault {
      forall m | 0 <= m < |turns| ensures !ComesUp(engines, Run(engines, n, turns[..m]), turns[m], i) {
        assert Reported(engines, n, turns, m, i) != NoFault && Reported(engines, n, turns, m + 1, i) != NoFault;
        RunLast(engines, n, turns, m);
        TurnClearsIff(engines, Run(engines, n, turns[..m]), turns[m], i);
      }
    }
  }
}
