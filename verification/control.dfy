/** The registry mutations behind the web handlers of main.py: lazy default
    initialisation of known scripts (index), status lookup, explicit start
    and stop. Each handler's locked block is one atomic step. */
module Control {
  import opened Runtime

  /** One entry of the script configuration file: executable path, and the
      optional "args" and "policy" keys. */
  datatype ScriptMeta = ScriptMeta(path: string, args: Option<seq<string>>, policy: Option<string>)

  /** The policy string a script runs with: its "policy" key, else "on-failure". */
  function ConfiguredPolicy(meta: ScriptMeta): (s: string)
    ensures meta.policy.Some? ==> s == meta.policy.value
    ensures meta.policy.None? ==> ParsePolicy(s) == OnFailure
  {
    meta.policy.GetOr(DefaultPolicy)
  }

  /** The record the index page inserts for a configured script it has not seen. */
  function DefaultRecord(meta: ScriptMeta): (r: Record)
    ensures r.status == Some(Stopped) && r.shouldStop == Some(false)
    ensures r.subscribers == Some(map[]) && r.policy == Some(ConfiguredPolicy(meta))
    ensures r.output.None? && r.returnCode.None? && !r.hasProcess
  {
    Record(Some(Stopped), Some(ConfiguredPolicy(meta)), None, None, Some(false), Some(map[]), false)
  }

  /** The index page's `setdefault` over every configured script: known
      names keep their record, unknown ones get the default record. */
  function InitRuntime(reg: Registry, scripts: map<string, ScriptMeta>): (r: Registry)
    ensures r.Keys == reg.Keys + scripts.Keys
    ensures forall n :: n in reg ==> r[n] == reg[n]
    ensures forall n :: n in scripts && n !in reg ==> r[n] == DefaultRecord(scripts[n])
    ensures Bounded(reg) ==> Bounded(r)
  {
    map n | n in reg.Keys + scripts.Keys ::
      if n in reg then reg[n] else DefaultRecord(scripts[n])
  }

  /** `processes.get(name, {}).get("status", "stopped")`. */
  function StatusOf(reg: Registry, name: string): (s: Status)
    ensures name in reg && reg[name].status.Some? ==> s == reg[name].status.value
    ensures name !in reg || reg[name].status.None? ==> s == Stopped
  {
    if name in reg then reg[name].status.GetOr(Stopped) else Stopped
  }

  /** The status snapshot of the index page and the status websocket. */
  function Statuses(reg: Registry, names: set<string>): (m: map<string, Status>)
    ensures m.Keys == names
    ensures forall n :: n in names ==> m[n] == StatusOf(reg, n)
  {
    map n | n in names :: StatusOf(reg, n)
  }

  /** The statuses the index page shows after initialising the registry:
      a configured script is "running" or "error" only if its record already
      said so. */
  lemma IndexStatuses(reg: Registry, scripts: map<string, ScriptMeta>, n: string)
    requires n in scripts
    ensures Statuses(InitRuntime(reg, scripts), scripts.Keys)[n] == StatusOf(reg, n)
    ensures n !in reg ==> Statuses(InitRuntime(reg, scripts), scripts.Keys)[n] == Stopped
  {
  }

  /** Outcome of a start request. `Spawned` carries the registry after the
      locked reset and the command and policy string the new monitor thread
      runs with; in the other cases the registry is left as it was. */
  datatype StartResult =
    | NotFound
    | AlreadyRunning
    | Spawned(registry: Registry, command: seq<string>, policy: string)

  /** The record after an explicit start's reset of `base`: stop flag
      cleared, output emptied, policy refreshed, subscribers kept. */
  function ResetForStart(base: Record, meta: ScriptMeta): (r: Record)
    ensures r.shouldStop == Some(false) && r.output == Some("")
    ensures r.policy == Some(ConfiguredPolicy(meta))
    ensures r.subscribers.Some? && (base.subscribers.Some? ==> r.subscribers == base.subscribers)
    ensures base.subscribers.None? ==> r.subscribers == Some(map[])
    ensures r == base.(shouldStop := r.shouldStop, output := r.output, policy := r.policy, subscribers := r.subscribers)
  {
    base.(shouldStop := Some(false), output := Some(""),
          policy := Some(ConfiguredPolicy(meta)),
          subscribers := Some(base.subscribers.GetOr(map[])))
  }

  /** Explicit start: unknown in the configuration is not found; a record
      whose status is "running" is left alone; otherwise the record (created
      empty if missing) is reset and a monitor thread is spawned. */
  function Start(reg: Registry, scripts: map<string, ScriptMeta>, name: string): (r: StartResult)
    ensures r.NotFound? <==> name !in scripts
    ensures r.AlreadyRunning? <==> name in scripts && name in reg && reg[name].status == Some(Running)
    ensures r.Spawned? ==>
      && r.registry.Keys == reg.Keys + {name}
      && (forall n :: n in reg && n != name ==> r.registry[n] == reg[n])
      && var before := if name in reg then reg[name] else EmptyRecord;
      && var after := r.registry[name];
      && after.shouldStop == Some(false)
      && after.output == Some("")
      && after.policy == Some(ConfiguredPolicy(scripts[name]))
      && after.subscribers == Some(before.subscribers.GetOr(map[]))
      && after.status == before.status && after.status != Some(Running)
      && after.returnCode == before.returnCode
      && after.hasProcess == before.hasProcess
      && r.command == ["python3", scripts[name].path] + scripts[name].args.GetOr([])
      && r.policy == ConfiguredPolicy(scripts[name])
    ensures r.Spawned? && Bounded(reg) ==> Bounded(r.registry)
  {
    if name !in scripts then NotFound
    else if name in reg && reg[name].status == Some(Running) then AlreadyRunning
    else
      var meta := scripts[name];
      var base := if name in reg then reg[name] else EmptyRecord;
      Spawned(reg[name := ResetForStart(base, meta)],
              ["python3", meta.path] + meta.args.GetOr([]),
              ConfiguredPolicy(meta))
  }

  /** A stop request's writes to a known record: the sticky stop flag and
      status "stopped"; nothing else in the record changes. */
  function StopRecord(rec: Record): (r: Record)
    ensures r.shouldStop == Some(true) && r.status == Some(Stopped)
    ensures r == rec.(shouldStop := r.shouldStop, status := r.status)
  {
    rec.(shouldStop := Some(true), status := Some(Stopped))
  }

  /** The registry mutations of a stop request: unknown names are left
      alone, a known record is stopped. Terminating the live child is the
      operating system's part. */
  function Stop(reg: Registry, name: string): (r: Registry)
    ensures r.Keys == reg.Keys
    ensures forall n :: n in reg && n != name ==> r[n] == reg[n]
    ensures name !in reg ==> r == reg
    ensures name in reg ==> r[name] == StopRecord(reg[name])
    ensures Bounded(reg) ==> Bounded(r)
  {
    if name !in reg then reg else reg[name := StopRecord(reg[name])]
  }

  /** Stopping twice is the same as stopping once. */
  lemma StopIdempotent(reg: Registry, name: string)
    ensures Stop(Stop(reg, name), name) == Stop(reg, name)
  {
  }

  /** The stop flag stays set until the next explicit start, and that start
      always goes ahead (a stopped record is never "running") and clears it. */
  lemma StartAfterStopClearsFlag(reg: Registry, scripts: map<string, ScriptMeta>, name: string)
    requires name in reg && name in scripts
    ensures Start(Stop(reg, name), scripts, name).Spawned?
    ensures Start(Stop(reg, name), scripts, name).registry[name].shouldStop == Some(false)
    ensures Start(Stop(reg, name), scripts, name).registry[name].status == Some(Stopped)
  {
  }

  /** A start request is not blocked by an earlier start whose monitor has
      not yet launched its child: the status is still not "running", so a
      second monitor thread is spawned. */
  lemma StartBeforeLaunchSpawnsAgain(reg: Registry, scripts: map<string, ScriptMeta>, name: string)
    requires Start(reg, scripts, name).Spawned?
    ensures Start(Start(reg, scripts, name).registry, scripts, name).Spawned?
  {
  }
}
