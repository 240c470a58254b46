/** When a supervised core keeps its process, and with it every connection, and what the
    agent reports otherwise. */
module EngineRestarts {

  import opened EngineSupervisor
  import opened Wrappers

  /** The temporary file is a sibling of the same extension: "node-xray.tmp.json". */
  lemma TempIs(base: string, e: string)
    requires |e| > 1 && e[0] == '.' && '/' !in e && forall i :: 1 <= i < |e| ==> e[i] != '.'
    ensures TempPath(base + e) == base + ".tmp" + e
  {
    ExtOf(base, e);
    assert (base + e)[..|base + e| - |e|] == base;
  }

  /** A new config has been written, passed the validator where there is a binary to run it,
      and moved into place. */
  predicate Committed(e: Engine, p: Proc, cfg: string, env: Env) {
    cfg != "" && cfg != p.lastCfg && env.writeOk && (e.binary ==> env.testOk) && env.renameOk
  }

  /** The running core took the change. */
  predicate TakenRunning(e: Engine, p: Proc, env: Env) {
    e.binary && p.serving.Some? && e.canHotApply && env.hot == Applied
  }

  /** A committed config the running core took: the process is the one it was, serves the new
      config and reports no fault, whatever starting it would have done. */
  lemma HotApplyKeepsProcess(e: Engine, p: Proc, files: Files, cfg: string, env: Env)
    requires Committed(e, p, cfg, env) && TakenRunning(e, p, env)
    ensures var p' := ApplyConfig(e, p, files, cfg, env).0;
      p'.startedAt == p.startedAt && p'.serving == Some(cfg) && p'.lastErr == NoFault && p'.lastCfg == cfg
  {
  }

  /** A committed config it did not take: the process ends; a new one serves the config if
      there is a binary and it starts, and otherwise nothing runs and the reason is reported. */
  lemma RestartIsReported(e: Engine, p: Proc, files: Files, cfg: string, env: Env)
    requires Committed(e, p, cfg, env) && !TakenRunning(e, p, env)
    ensures var p' := ApplyConfig(e, p, files, cfg, env).0;
      && p'.lastCfg == cfg
      && p'.startedAt == (if e.binary then Some(env.now) else None)
      && p'.serving == (if e.binary && env.startOk then Some(cfg) else None)
      && p'.lastErr == (if !e.binary then NoBinary else if env.startOk then NoFault else StartFailed)
  {
  }

  /** A config that gets no further than the temporary file: the fault is that of the first
      step that failed, in the words of the validator where it was the validator. */
  lemma RefusalIsReported(e: Engine, p: Proc, files: Files, cfg: string, env: Env)
    requires cfg != "" && cfg != p.lastCfg && !Committed(e, p, cfg, env)
    ensures var (p', files') := ApplyConfig(e, p, files, cfg, env);
      && p'.(validated := p.validated) == p.(lastErr := p'.lastErr)
      && (!env.writeOk ==> p'.lastErr == WriteFailed)
      && (env.writeOk && e.binary && !env.testOk ==> p'.lastErr == Rejected(env.words))
      && (env.writeOk && (e.binary ==> env.testOk) ==> p'.lastErr == CommitFailed)
      && (env.writeOk && env.removeOk ==> TempPath(e.path) !in files')
      && (env.writeOk && !env.removeOk ==> TempPath(e.path) in files' && files'[TempPath(e.path)] == cfg)
      && (!env.writeOk ==> files' == if env.torn.Some? then files[TempPath(e.path) := env.torn.value] else files)
  {
  }

  /** Committing leaves the config in its file and nothing in the temporary one. */
  lemma CommitIsClean(e: Engine, p: Proc, files: Files, cfg: string, env: Env)
    requires Committed(e, p, cfg, env)
    ensures var files' := ApplyConfig(e, p, files, cfg, env).1;
      e.path in files' && files'[e.path] == cfg && TempPath(e.path) !in files'
  {
    TempKeepsExtension(e.path);
  }

  /** An engine with nothing to serve: no process, no start time, and no file to come back to. */
  lemma EmptyStops(e: Engine, p: Proc, files: Files, env: Env)
    requires p.lastCfg != ""
    ensures var (p', files') := ApplyConfig(e, p, files, "", env);
      && p'.serving == None && p'.startedAt == None && p'.lastCfg == "" && p'.lastErr == p.lastErr
      && (env.removeOk ==> e.path !in files') && (!env.removeOk ==> files' == files) && (forall f :: f in files && f != e.path ==> f in files' && files'[f] == files[f])
  {
  }

  /** The config on record changes nothing at all. */
  lemma SameConfigIsNothing(e: Engine, p: Proc, files: Files, env: Env)
    ensures ApplyConfig(e, p, files, p.lastCfg, env) == (p, files)
  {
  }

  // ---------- Over whole runs ----------

  /** What ends a process: an empty config, or a new one that is committed and not taken by
      the running core. */
  predicate Ends(e: Engine, p: Proc, cfg: string, env: Env) {
    cfg != p.lastCfg && (cfg == "" || (Committed(e, p, cfg, env) && !TakenRunning(e, p, env)))
  }

  /** Core `i` runs the process it started with at time `since`. */
  ghost predicate StillRuns(engines: seq<Engine>, n: Node, turns: seq<Turn>, m: nat, i: nat, since: int)
    requires i < |engines| == |n.procs| && m <= |turns|
  {
    var p := Run(engines, n, turns[..m]).procs[i];
    p.serving.Some? && p.startedAt == Some(since)
  }

  ghost predicate Ended(engines: seq<Engine>, n: Node, turns: seq<Turn>, m: nat, i: nat)
    requires i < |engines| == |n.procs| && m < |turns|
  {
    turns[m].engine == i && Ends(engines[i], Run(engines, n, turns[..m]).procs[i], turns[m].cfg, turns[m].env)
  }

  lemma TurnEndsIff(engines: seq<Engine>, n: Node, t: Turn, i: nat, since: int)
    requires i < |engines| == |n.procs| && t.env.now > since
    requires n.procs[i].serving.Some? && n.procs[i].startedAt == Some(since)
    ensures var p := TakeTurn(engines, n, t).procs[i];
      p.serving.Some? && p.startedAt == Some(since) <==> !(t.engine == i && Ends(engines[i], n.procs[i], t.cfg, t.env))
  {
  }

  lemma {:induction false} RunsUntil(engines: seq<Engine>, n: Node, turns: seq<Turn>, i: nat, since: int, m: nat)
    requires i < |engines| == |n.procs| && m <= |turns| && n.procs[i].serving.Some? && n.procs[i].startedAt == Some(since)
    requires forall k :: 0 <= k < |turns| ==> turns[k].env.now > since
    requires forall k :: 0 <= k < m ==> !Ended(engines, n, turns, k, i)
    ensures StillRuns(engines, n, turns, m, i, since)
  {
    hide TakeTurn, Ends;
    if m > 0 {
      RunsUntil(engines, n, turns, i, since, m - 1);
      RunLast(engines, n, turns, m - 1);
      assert !Ended(engines, n, turns, m - 1, i);
      TurnEndsIff(engines, Run(engines, n, turns[..m - 1]), turns[m - 1], i, since);
    }
  }

  /** Over every run of every core: a core that runs goes on running, in the same process, if
      and only if neither an empty config nor a committed new one that it did not take while
      running arrives for it.  (Time goes on: a new process has a later start time.) */
  lemma ProcessKeptIff(engines: seq<Engine>, n: Node, turns: seq<Turn>, i: nat, since: int)
    requires i < |engines| == |n.procs| && n.procs[i].serving.Some? && n.procs[i].startedAt == Some(since)
    requires forall k :: 0 <= k < |turns| ==> turns[k].env.now > since
    ensures (forall m: nat :: m <= |turns| ==> StillRuns(engines, n, turns, m, i, since)) <==>
      forall m: nat :: m < |turns| ==> !Ended(engines, n, turns, m, i)
  {
    hide TakeTurn, Ends, Run;
    if forall m: nat :: m < |turns| ==> !Ended(engines, n, turns, m, i) {
      forall m: nat | m <= |turns| ensures StillRuns(engines, n, turns, m, i, since) {
        RunsUntil(engines, n, turns, i, since, m);
      }
    }
    if forall m: nat :: m <= |turns| ==> StillRuns(engines, n, turns, m, i, since) {
      forall m: nat | m < |turns| ensures !Ended(engines, n, turns, m, i) {
        assert StillRuns(engines, n, turns, m, i, since) && StillRuns(engines, n, turns, m + 1, i, since);
        RunLast(engines, n, turns, m);
        TurnEndsIff(engines, Run(engines, n, turns[..m]), turns[m], i, since);
      }
    }
  }
}
