/** Properties that span the control operations, the monitor loop and the
    fan-out: what an explicit start, a stop and a late subscriber see. */
module Session {
  import opened Runtime
  import opened Control
  import opened Fanout
  import opened Supervisor

  /** An explicit start resets the history: once its monitor has run, the
      output is the tail of what the launched children printed since the
      start, existing subscribers are kept, and unless a stop request comes
      first a child is launched. */
  lemma StartThenMonitor(reg: Registry, scripts: map<string, ScriptMeta>, name: string, cycles: seq<Cycle>)
    requires Start(reg, scripts, name).Spawned?
    ensures var s := Start(reg, scripts, name);
      var t := Monitor(s.registry[name], s.policy, cycles);
      && t.record.output.GetOr("") == Tail(Concat(Printed(cycles[..t.launches])), OutputCap)
      && QueuesOf(t.record).Keys == SubscribersOf(reg, name).Keys
      && (|cycles| > 0 && !cycles[0].stopAtLaunch ==> t.launches >= 1)
  {
    var s := Start(reg, scripts, name);
    var rec := s.registry[name];
    assert rec.output == Some("") && !ShouldStop(rec);
    MonitorOutput(rec, s.policy, cycles);
    var t := Monitor(rec, s.policy, cycles);
    assert "" + Concat(Printed(cycles[..t.launches])) == Concat(Printed(cycles[..t.launches]));
    if |cycles| > 0 && !cycles[0].stopAtLaunch {
      FirstTurnLaunches(rec, s.policy, cycles);
    }
  }

  /** The stop flag is sticky: once a stop request has been handled, the
      monitor of that name launches nothing more and leaves "stopped". */
  lemma StoppedStaysStopped(reg: Registry, name: string, policy: string, cycles: seq<Cycle>)
    requires name in reg && |cycles| > 0
    ensures var t := Monitor(Stop(reg, name)[name], policy, cycles);
      t.ended && t.launches == 0 && t.record.status == Some(Stopped)
  {
    StopSeenBeforeLaunch(Stop(reg, name)[name], policy, cycles);
  }

  /** Stopping a name whose monitor has already finished changes only its
      flag and status, and stopping again changes nothing. */
  lemma StopAfterMonitor(reg: Registry, name: string, policy: string, cycles: seq<Cycle>)
    requires name in reg
    ensures var r := Stop(Supervise(reg, name, policy, cycles), name);
      && r[name].status == Some(Stopped) && r[name].shouldStop == Some(true)
      && Stop(r, name) == r
  {
    StopIdempotent(Supervise(reg, name, policy, cycles), name);
  }

  /** A listener attaching after a run gets the last 2000 characters of
      everything printed since the start, the same as the last 2000 of the
      20000-character tail. */
  lemma LateSubscriberSnapshot(reg: Registry, scripts: map<string, ScriptMeta>, name: string,
                               cycles: seq<Cycle>, q: QueueId)
    requires Start(reg, scripts, name).Spawned?
    ensures var s := Start(reg, scripts, name);
      var t := Monitor(s.registry[name], s.policy, cycles);
      var r := Supervise(s.registry, name, s.policy, cycles);
      Subscribe(r, name, q).snapshot == Tail(Concat(Printed(cycles[..t.launches])), SnapshotCap)
  {
    var s := Start(reg, scripts, name);
    var t := Monitor(s.registry[name], s.policy, cycles);
    StartThenMonitor(reg, scripts, name, cycles);
    TailOfTail(Concat(Printed(cycles[..t.launches])), OutputCap, SnapshotCap);
  }

  /** A listener attached between the start and the monitor's run: with
      nothing read from it, its new queue holds the first min(1000, n) of
      the n lines printed afterwards, in order and without repeats. */
  lemma SubscriberSeesRun(reg: Registry, scripts: map<string, ScriptMeta>, name: string,
                          cycles: seq<Cycle>, q: QueueId)
    requires Start(reg, scripts, name).Spawned?
    requires q !in SubscribersOf(Start(reg, scripts, name).registry, name)
    ensures var s := Start(reg, scripts, name);
      var attached := Subscribe(s.registry, name, q).registry;
      var t := Monitor(attached[name], s.policy, cycles);
      var printed := Printed(cycles[..t.launches]);
      && q in QueuesOf(t.record)
      && QueuesOf(t.record)[q] == printed[..if |printed| <= QueueCapacity then |printed| else QueueCapacity]
  {
    var s := Start(reg, scripts, name);
    var attached := Subscribe(s.registry, name, q).registry;
    assert QueuesOf(attached[name])[q] == [];
    MonitorQueues(attached[name], s.policy, cycles, q);
  }

  /** A single child watched under "never" from an emptied output, with no
      stop request: one launch, the child's verdict as status, its exit code
      recorded, and its lines in the tail. */
  lemma SingleRunUnderNever(rec: Record, child: ChildRun)
    requires rec.output == Some("") && !ShouldStop(rec)
    ensures var t := Monitor(rec, "never", [Cycle(false, child, false)]);
      && t.ended && t.launches == 1
      && t.record.status == Some(if child.exitCode == 0 then Stopped else Error)
      && t.record.returnCode == Some(child.exitCode)
      && t.record.output == Some(Tail(Concat(child.lines), OutputCap))
  {
    var cs := [Cycle(false, child, false)];
    var t := Monitor(rec, "never", cs);
    var u := RunCycle(rec, Never, cs[0]);
    assert u.launched && !u.again;
    assert t.record == u.record && t.launches == 1;
    RunCycleOutput(rec, Never, cs[0]);
    assert "" + Concat(child.lines) == Concat(child.lines);
  }

  /** The three lines of the clean-run scenario make up six characters. */
  lemma ConcatOfThree()
    ensures Concat(["A\n", "B\n", "C\n"]) == "A\nB\nC\n"
  {
    var lines := ["A\n", "B\n", "C\n"];
    assert lines[1..][1..] == ["C\n"];
    assert Concat(lines[1..][1..]) == "C\n";
    assert Concat(lines[1..]) == "B\n" + "C\n";
  }

  /** A child that prints "A", "B", "C" and exits 0 under "never": one
      launch, status "stopped", exit code 0, and the lines in the tail. */
  lemma CleanRunScenario(rec: Record)
    requires rec.output == Some("") && !ShouldStop(rec)
    ensures var t := Monitor(rec, "never", [Cycle(false, ChildRun(["A\n", "B\n", "C\n"], 0), false)]);
      && t.ended && t.launches == 1
      && t.record.status == Some(Stopped)
      && t.record.returnCode == Some(0)
      && t.record.output == Some("A\nB\nC\n")
  {
    SingleRunUnderNever(rec, ChildRun(["A\n", "B\n", "C\n"], 0));
    ConcatOfThree();
    TailOfShort("A\nB\nC\n", OutputCap);
  }

  /** A child that always exits 1 under "on-failure", watched for three
      cycles: relaunched every time, alternating "running" and "error". */
  lemma CrashLoopScenario(rec: Record, child: ChildRun)
    requires child.exitCode == 1 && !ShouldStop(rec)
    ensures var t := Monitor(rec, "on-failure", [Cycle(false, child, false), Cycle(false, child, false), Cycle(false, child, false)]);
      && !t.ended && t.launches == 3
      && t.statuses == [Running, Error, Running, Error, Running, Error]
  {
    var c := Cycle(false, child, false);
    var cs := [c, c, c];
    assert forall i :: 0 <= i < |cs| ==> cs[i] == c;
    RestartsEveryChild(rec, "on-failure", cs);
    JudgedCrashes(c);
  }

  /** Three judged crashes under "on-failure" write "running" / "error" three times. */
  lemma JudgedCrashes(c: Cycle)
    requires c.child.exitCode != 0
    ensures Judged(OnFailure, [c, c, c]) == [Running, Error, Running, Error, Running, Error]
  {
    var cs := [c, c, c];
    assert cs[1..] == [c, c] && cs[1..][1..] == [c] && cs[1..][1..][1..] == [];
    assert Judged(OnFailure, [c]) == [Running, Error];
  }
}
