/** The per-name monitor loop of main.py (`monitor_script`) as a pure
    function over a finite script of child runs.

    Each child is replaced by its scripted outcome: the lines it prints and
    its exit code. A stop request from the control side is an atomic
    `Control.StopRecord` that completes just before one of the loop's two
    checkpoints; the loop itself reads the stop flag from the record.
    The loop only ever touches `processes[name]`, so it is written on that
    one record; `Supervise` places it back into the registry. */
module Supervisor {
  import opened Runtime
  import opened Control
  import opened Fanout

  /** What one child run produces. */
  datatype ChildRun = ChildRun(lines: seq<string>, exitCode: int)

  /** One turn of the loop: whether a stop request arrives before the
      pre-launch checkpoint, the child it would launch, and whether a stop
      request arrives before the post-exit checkpoint. */
  datatype Cycle = Cycle(stopAtLaunch: bool, child: ChildRun, stopAtExit: bool)

  /** The loop's reaction to an exit that no stop request preceded. */
  datatype Verdict = Verdict(status: Status, relaunch: bool)

  /** The restart table: a failure is "error" and is retried under
      "on-failure" and "always"; a clean exit is "stopped" and is retried
      only under "always". */
  function Decide(policy: Policy, exitCode: int): (v: Verdict)
    ensures exitCode != 0 ==> v.status == Error && (v.relaunch <==> policy != Never)
    ensures exitCode == 0 ==> v.status == Stopped && (v.relaunch <==> policy == Always)
  {
    if exitCode != 0 then Verdict(Error, policy == OnFailure || policy == Always)
    else Verdict(Stopped, policy == Always)
  }

  /** `processes[name].get("should_stop", False)`: a missing key reads as
      no stop request. */
  function ShouldStop(rec: Record): (b: bool)
    ensures b <==> rec.shouldStop == Some(true)
  {
    rec.shouldStop.GetOr(false)
  }

  /** A stop request completing just before a checkpoint, or none. A request
      leaves the flag set and status "stopped"; no request changes nothing. */
  function Checkpoint(rec: Record, stopRequested: bool): (r: Record)
    ensures stopRequested ==> ShouldStop(r) && r.status == Some(Stopped)
    ensures !stopRequested ==> r == rec
    ensures r == rec.(shouldStop := r.shouldStop, status := r.status)
  {
    if stopRequested then StopRecord(rec) else rec
  }

  /** The locked block after `Popen`: process handle and start time set,
      status "running", output kept (`setdefault`), exit code not cleared. */
  function Launch(rec: Record): (r: Record)
    ensures r.status == Some(Running) && r.hasProcess
    ensures r.output == Some(rec.output.GetOr(""))
    ensures r == rec.(status := r.status, hasProcess := r.hasProcess, output := r.output)
  {
    rec.(hasProcess := true, status := Some(Running), output := Some(rec.output.GetOr("")))
  }

  /** One output line: appended to the record's output, of which the last
      20000 characters are kept. */
  function AppendOutput(rec: Record, line: string): (r: Record)
    ensures r == rec.(output := r.output)
    ensures r.output == Some(Tail(rec.output.GetOr("") + line, OutputCap))
    ensures |r.output.value| <= OutputCap
  {
    rec.(output := Some(Tail(rec.output.GetOr("") + line, OutputCap)))
  }

  /** The read loop over the child's output: every line is appended to the
      output tail and then broadcast to the record's subscribers. */
  function Feed(rec: Record, lines: seq<string>): (r: Record)
    ensures r == rec.(output := r.output, subscribers := r.subscribers)
    ensures rec.subscribers.Some? <==> r.subscribers.Some?
    ensures QueuesOf(r).Keys == QueuesOf(rec).Keys
    ensures rec.output.Some? ==> r.output.Some?
    ensures RecordBounded(rec) ==> RecordBounded(r)
    decreases |lines|
  {
    if |lines| == 0 then rec
    else Feed(Deliver(AppendOutput(rec, lines[0]), lines[0]), lines[1..])
  }

  /** The locked block after `proc.wait()`: the exit code is recorded and
      nothing else changes. */
  function RecordExit(rec: Record, code: int): (r: Record)
    ensures r.returnCode == Some(code)
    ensures r == rec.(returnCode := r.returnCode)
  {
    rec.(returnCode := Some(code))
  }

  function SetStatus(rec: Record, s: Status): Record {
    rec.(status := Some(s))
  }

  /** All the characters a sequence of lines makes up. */
  function Concat(lines: seq<string>): string
    decreases |lines|
  {
    if |lines| == 0 then "" else lines[0] + Concat(lines[1..])
  }

  /** All the lines printed by the children of a sequence of cycles. */
  function Printed(cycles: seq<Cycle>): seq<string>
    decreases |cycles|
  {
    if |cycles| == 0 then [] else cycles[0].child.lines + Printed(cycles[1..])
  }

  /** After the read loop the output is the tail of everything so far. */
  lemma {:induction false} FeedOutput(rec: Record, lines: seq<string>)
    requires |rec.output.GetOr("")| <= OutputCap
    ensures Feed(rec, lines).output.GetOr("") == Tail(rec.output.GetOr("") + Concat(lines), OutputCap)
    decreases |lines|
  {
    var old_ := rec.output.GetOr("");
    if |lines| == 0 {
      assert old_ + "" == old_;
      TailOfShort(old_, OutputCap);
    } else {
      var line, rest := lines[0], lines[1..];
      var r1 := Deliver(AppendOutput(rec, line), line);
      var mid := Tail(old_ + line, OutputCap);
      assert r1.output.GetOr("") == mid;
      assert Feed(rec, lines) == Feed(r1, rest);
      FeedOutput(r1, rest);
      calc {
        Feed(rec, lines).output.GetOr("");
        Tail(mid + Concat(rest), OutputCap);
        { TailAppend(old_ + line, Concat(rest), OutputCap); }
        Tail(old_ + line + Concat(rest), OutputCap);
        { assert old_ + line + Concat(rest) == old_ + Concat(lines); }
        Tail(old_ + Concat(lines), OutputCap);
      }
    }
  }

  /** During the read loop each subscriber queue receives the lines as
      `OfferAll` says: in the order printed, the newest dropped when full. */
  lemma {:induction false} FeedQueues(rec: Record, lines: seq<string>, q: QueueId)
    requires q in QueuesOf(rec)
    ensures q in QueuesOf(Feed(rec, lines))
    ensures QueuesOf(Feed(rec, lines))[q] == OfferAll(QueuesOf(rec)[q], lines)
    decreases |lines|
  {
    if |lines| > 0 {
      var r1 := Deliver(AppendOutput(rec, lines[0]), lines[0]);
      assert QueuesOf(r1)[q] == Offer(QueuesOf(rec)[q], lines[0]);
      FeedQueues(r1, lines[1..], q);
    }
  }

  /** What one turn of the loop did: the record afterwards, the statuses it
      wrote, whether it launched a child and whether it goes round again. */
  datatype Turn = Turn(record: Record, statuses: seq<Status>, launched: bool, again: bool)

  /** One turn of `monitor_script`'s `while True` body. */
  function RunCycle(rec: Record, policy: Policy, c: Cycle): (u: Turn)
    ensures |u.statuses| > 0 && u.statuses[|u.statuses| - 1] != Running
    ensures u.record.status == Some(u.statuses[|u.statuses| - 1])
    ensures !u.launched ==> u.statuses == [Stopped] && !u.again
    ensures !u.launched ==> u.record.returnCode == rec.returnCode && u.record.output == rec.output
    ensures u.launched ==> u.statuses[0] == Running
    ensures u.launched ==> u.record.returnCode == Some(c.child.exitCode) && u.record.hasProcess
    ensures u.launched ==> u.record.output.Some?
    ensures u.again ==> u.launched && u.record.shouldStop == rec.shouldStop
    ensures u.record.policy == rec.policy
    ensures u.record.subscribers.Some? <==> rec.subscribers.Some?
    ensures QueuesOf(u.record).Keys == QueuesOf(rec).Keys
    ensures RecordBounded(rec) ==> RecordBounded(u.record)
  {
    var r0 := Checkpoint(rec, c.stopAtLaunch);
    if ShouldStop(r0) then
      Turn(SetStatus(r0, Stopped), [Stopped], false, false)
    else
      var r1 := Launch(r0);
      var r2 := Feed(r1, c.child.lines);
      var r3 := RecordExit(r2, c.child.exitCode);
      var r4 := Checkpoint(r3, c.stopAtExit);
      if ShouldStop(r4) then
        Turn(SetStatus(r4, Stopped), [Running, Stopped], true, false)
      else
        var v := Decide(policy, c.child.exitCode);
        Turn(SetStatus(r4, v.status), [Running, v.status], true, v.relaunch)
  }

  /** What the loop did with a script of cycles: the record afterwards,
      every status it wrote in order, how many children it launched, and
      whether it left the loop. When `ended` is false the script ran out
      while the loop was about to re-check the flag for a relaunch. */
  datatype Trace = Trace(record: Record, statuses: seq<Status>, launches: nat, ended: bool)

  /** `monitor_script(name, cmd, policy)` on the record of `name`, run
      against a script of cycles. The policy string is read with
      `ParsePolicy`, so unknown strings behave like "never". */
  function Monitor(rec: Record, policy: string, cycles: seq<Cycle>): (t: Trace)
    ensures t.launches <= |cycles|
    ensures !t.ended ==> t.launches == |cycles|
    ensures |cycles| > 0 ==> |t.statuses| > 0
    ensures t.ended ==> |t.statuses| > 0
    ensures |t.statuses| > 0 ==>
      && t.record.status == Some(t.statuses[|t.statuses| - 1])
      && t.statuses[|t.statuses| - 1] != Running
    ensures t.record.policy == rec.policy
    ensures QueuesOf(t.record).Keys == QueuesOf(rec).Keys
    ensures RecordBounded(rec) ==> RecordBounded(t.record)
    decreases |cycles|
  {
    if |cycles| == 0 then Trace(rec, [], 0, false)
    else
      var u := RunCycle(rec, ParsePolicy(policy), cycles[0]);
      if u.again then
        var rest := Monitor(u.record, policy, cycles[1..]);
        var all := u.statuses + rest.statuses;
        assert |rest.statuses| > 0 ==> all[|all| - 1] == rest.statuses[|rest.statuses| - 1];
        Trace(rest.record, all, 1 + rest.launches, rest.ended)
      else
        Trace(u.record, u.statuses, if u.launched then 1 else 0, true)
  }

  /** The monitor thread of `name` as a registry step: only the record of
      `name` changes, and it changes as `Monitor` says. */
  function Supervise(reg: Registry, name: string, policy: string, cycles: seq<Cycle>): (r: Registry)
    requires name in reg
    ensures r.Keys == reg.Keys
    ensures forall n :: n in reg && n != name ==> r[n] == reg[n]
    ensures r[name] == Monitor(reg[name], policy, cycles).record
    ensures Bounded(reg) ==> Bounded(r)
  {
    reg[name := Monitor(reg[name], policy, cycles).record]
  }

  /** The exit code is written only after a child exits and is not cleared
      at launch: after the loop it is the last launched child's code, or
      untouched when nothing was launched. */
  lemma {:induction false} MonitorExitCode(rec: Record, policy: string, cycles: seq<Cycle>)
    ensures var t := Monitor(rec, policy, cycles);
      && (t.launches > 0 ==>
            && t.record.returnCode == Some(cycles[t.launches - 1].child.exitCode)
            && t.record.hasProcess)
      && (t.launches == 0 ==> t.record.returnCode == rec.returnCode)
    decreases |cycles|
  {
    if |cycles| > 0 {
      var u := RunCycle(rec, ParsePolicy(policy), cycles[0]);
      if u.again {
        RelaunchShape(rec, policy, cycles);
        MonitorExitCode(u.record, policy, cycles[1..]);
        var rest := Monitor(u.record, policy, cycles[1..]);
        if rest.launches > 0 {
          assert cycles[1..][rest.launches - 1] == cycles[rest.launches];
        }
      }
    }
  }

  /** A stop flag seen at the pre-launch checkpoint ends the loop in
      "stopped" without launching anything, whatever the policy. */
  lemma StopSeenBeforeLaunch(rec: Record, policy: string, cycles: seq<Cycle>)
    requires |cycles| > 0
    requires ShouldStop(rec) || cycles[0].stopAtLaunch
    ensures var t := Monitor(rec, policy, cycles);
      && t.ended && t.launches == 0 && t.statuses == [Stopped]
      && t.record.status == Some(Stopped)
      && t.record.shouldStop == Some(true)
      && t.record.output == rec.output
  {
  }

  /** A stop flag seen at the post-exit checkpoint ends the loop in
      "stopped" after that one child, whatever its exit code or the policy. */
  lemma StopSeenAfterExit(rec: Record, policy: string, cycles: seq<Cycle>)
    requires |cycles| > 0
    requires !ShouldStop(rec) && !cycles[0].stopAtLaunch && cycles[0].stopAtExit
    ensures var t := Monitor(rec, policy, cycles);
      && t.ended && t.launches == 1 && t.statuses == [Running, Stopped]
      && t.record.status == Some(Stopped)
      && t.record.shouldStop == Some(true)
      && t.record.returnCode == Some(cycles[0].child.exitCode)
  {
  }

  /** With the flag clear and no stop request at the pre-launch checkpoint,
      the loop launches a child. */
  lemma FirstTurnLaunches(rec: Record, policy: string, cycles: seq<Cycle>)
    requires |cycles| > 0
    requires !ShouldStop(rec) && !cycles[0].stopAtLaunch
    ensures Monitor(rec, policy, cycles).launches >= 1
  {
    assert RunCycle(rec, ParsePolicy(policy), cycles[0]).launched;
  }

  /** The first turn when no stop request interferes: the child is launched,
      its exit is judged by the restart table, and a relaunch launches the
      next child unless a stop request arrives first. */
  lemma FirstTurnUnstopped(rec: Record, policy: string, cycles: seq<Cycle>)
    requires |cycles| > 0
    requires !ShouldStop(rec) && !cycles[0].stopAtLaunch && !cycles[0].stopAtExit
    ensures var t := Monitor(rec, policy, cycles);
      var v := Decide(ParsePolicy(policy), cycles[0].child.exitCode);
      && t.launches >= 1
      && |t.statuses| >= 2 && t.statuses[..2] == [Running, v.status]
      && (!v.relaunch ==> t.ended && t.launches == 1 && t.record.status == Some(v.status))
      && (v.relaunch && |cycles| > 1 && !cycles[1].stopAtLaunch ==> t.launches >= 2)
  {
    var u := RunCycle(rec, ParsePolicy(policy), cycles[0]);
    var t := Monitor(rec, policy, cycles);
    var v := Decide(ParsePolicy(policy), cycles[0].child.exitCode);
    assert u.launched && u.statuses == [Running, v.status] && u.again == v.relaunch;
    if v.relaunch {
      var rest := Monitor(u.record, policy, cycles[1..]);
      assert t.statuses == u.statuses + rest.statuses;
      assert t.statuses[..2] == u.statuses;
      if |cycles| > 1 && !cycles[1].stopAtLaunch {
        FirstTurnLaunches(u.record, policy, cycles[1..]);
      }
    }
  }

  /** A failed child (nonzero exit) leaves status "error"; it is relaunched
      under "on-failure" and "always", and under any other policy string the
      loop ends with status still "error". */
  lemma FailedExit(rec: Record, policy: string, cycles: seq<Cycle>)
    requires |cycles| > 0 && cycles[0].child.exitCode != 0
    requires !ShouldStop(rec) && !cycles[0].stopAtLaunch && !cycles[0].stopAtExit
    ensures var t := Monitor(rec, policy, cycles);
      && t.statuses[..2] == [Running, Error]
      && (policy != "on-failure" && policy != "always" ==>
            t.ended && t.launches == 1 && t.record.status == Some(Error))
      && ((policy == "on-failure" || policy == "always") && |cycles| > 1 && !cycles[1].stopAtLaunch ==>
            t.launches >= 2)
  {
    FirstTurnUnstopped(rec, policy, cycles);
  }

  /** A clean child (exit 0) leaves status "stopped"; only "always"
      relaunches it, so "on-failure" and unknown policies end the loop. */
  lemma CleanExit(rec: Record, policy: string, cycles: seq<Cycle>)
    requires |cycles| > 0 && cycles[0].child.exitCode == 0
    requires !ShouldStop(rec) && !cycles[0].stopAtLaunch && !cycles[0].stopAtExit
    ensures var t := Monitor(rec, policy, cycles);
      && t.statuses[..2] == [Running, Stopped]
      && (policy != "always" ==>
            t.ended && t.launches == 1 && t.record.status == Some(Stopped))
      && (policy == "always" && |cycles| > 1 && !cycles[1].stopAtLaunch ==> t.launches >= 2)
  {
    FirstTurnUnstopped(rec, policy, cycles);
  }

  /** A policy string other than "on-failure" and "always" runs the loop
      exactly as "never" does, which launches at most one child. */
  lemma UnknownPolicyActsAsNever(rec: Record, policy: string, cycles: seq<Cycle>)
    requires policy != "on-failure" && policy != "always"
    ensures Monitor(rec, policy, cycles) == Monitor(rec, "never", cycles)
    ensures Monitor(rec, policy, cycles).launches <= 1
  {
    if |cycles| > 0 {
      assert ParsePolicy(policy) == ParsePolicy("never") == Never;
      assert !RunCycle(rec, Never, cycles[0]).again;
    }
  }

  /** The statuses written by turns that each launch a child and judge its
      exit without a stop request. */
  function Judged(policy: Policy, cycles: seq<Cycle>): (s: seq<Status>)
    ensures |s| == 2 * |cycles|
    decreases |cycles|
  {
    if |cycles| == 0 then []
    else [Running, Decide(policy, cycles[0].child.exitCode).status] + Judged(policy, cycles[1..])
  }

  /** No stop request and exits the policy always retries: every scripted
      child is launched, the loop keeps going, and the statuses are the
      "running" / verdict pairs in order. Under "always" this is every
      script; under "on-failure" every crash loop (all exits nonzero). */
  lemma {:induction false} RestartsEveryChild(rec: Record, policy: string, cycles: seq<Cycle>)
    requires !ShouldStop(rec)
    requires forall i :: 0 <= i < |cycles| ==> !cycles[i].stopAtLaunch && !cycles[i].stopAtExit
    requires forall i :: 0 <= i < |cycles| ==> Decide(ParsePolicy(policy), cycles[i].child.exitCode).relaunch
    ensures var t := Monitor(rec, policy, cycles);
      && !t.ended && t.launches == |cycles|
      && t.statuses == Judged(ParsePolicy(policy), cycles)
    decreases |cycles|
  {
    if |cycles| > 0 {
      var u := RunCycle(rec, ParsePolicy(policy), cycles[0]);
      assert u.launched && u.again;
      assert forall i :: 0 <= i < |cycles[1..]| ==> cycles[1..][i] == cycles[i + 1];
      RestartsEveryChild(u.record, policy, cycles[1..]);
    }
  }

  /** `Concat` distributes over concatenation. */
  lemma {:induction false} ConcatAppend(a: seq<string>, b: seq<string>)
    ensures Concat(a + b) == Concat(a) + Concat(b)
    decreases |a|
  {
    if |a| == 0 {
      assert a + b == b;
    } else {
      assert (a + b)[0] == a[0];
      assert (a + b)[1..] == a[1..] + b;
      ConcatAppend(a[1..], b);
    }
  }

  /** The lines printed by the first `k + 1` cycles. */
  lemma PrintedPrefix(cycles: seq<Cycle>, k: nat)
    requires k < |cycles|
    ensures Printed(cycles[..k + 1]) == cycles[0].child.lines + Printed(cycles[1..][..k])
  {
    assert cycles[..k + 1][0] == cycles[0];
    assert cycles[..k + 1][1..] == cycles[1..][..k];
  }

  /** One turn's effect on the output tail: the child's lines appended with
      the 20000 bound when a child was launched. */
  lemma RunCycleOutput(rec: Record, policy: Policy, c: Cycle)
    requires |rec.output.GetOr("")| <= OutputCap
    ensures var u := RunCycle(rec, policy, c);
      u.launched ==> u.record.output.GetOr("") == Tail(rec.output.GetOr("") + Concat(c.child.lines), OutputCap)
  {
    var r0 := Checkpoint(rec, c.stopAtLaunch);
    if !ShouldStop(r0) {
      FeedOutput(Launch(r0), c.child.lines);
    }
  }

  /** Keeping the tail after one child and again after the next equals
      keeping it once after both. */
  lemma TailChain(o: string, a: string, b: string)
    ensures Tail(Tail(o + a, OutputCap) + b, OutputCap) == Tail(o + (a + b), OutputCap)
  {
    TailAppend(o + a, b, OutputCap);
    assert o + a + b == o + (a + b);
  }

  /** Automatic relaunches keep the history: the output after the loop is
      the last 20000 characters of what was there plus everything every
      launched child printed, in order. */
  lemma {:induction false} MonitorOutput(rec: Record, policy: string, cycles: seq<Cycle>)
    requires |rec.output.GetOr("")| <= OutputCap
    ensures var t := Monitor(rec, policy, cycles);
      t.record.output.GetOr("") == Tail(rec.output.GetOr("") + Concat(Printed(cycles[..t.launches])), OutputCap)
    decreases |cycles|, 2
  {
    var old_ := rec.output.GetOr("");
    var t := Monitor(rec, policy, cycles);
    if |cycles| == 0 || !RunCycle(rec, ParsePolicy(policy), cycles[0]).launched {
      assert t.launches == 0 && t.record.output == rec.output;
      assert old_ + Concat(Printed(cycles[..0])) == old_;
      TailOfShort(old_, OutputCap);
    } else if RunCycle(rec, ParsePolicy(policy), cycles[0]).again {
      MonitorOutputRelaunch(rec, policy, cycles);
    } else {
      var u := RunCycle(rec, ParsePolicy(policy), cycles[0]);
      RunCycleOutput(rec, ParsePolicy(policy), cycles[0]);
      assert t.record == u.record && t.launches == 1;
      PrintedPrefix(cycles, 0);
      assert cycles[0].child.lines + Printed(cycles[1..][..0]) == cycles[0].child.lines;
    }
  }

  /** How a relaunching turn composes with the rest of the loop. */
  lemma RelaunchShape(rec: Record, policy: string, cycles: seq<Cycle>)
    requires |cycles| > 0 && RunCycle(rec, ParsePolicy(policy), cycles[0]).again
    ensures var u := RunCycle(rec, ParsePolicy(policy), cycles[0]);
      var rest := Monitor(u.record, policy, cycles[1..]);
      var t := Monitor(rec, policy, cycles);
      t.record == rest.record && t.launches == 1 + rest.launches
  {
  }

  /** The relaunch case of `MonitorOutput`. */
  lemma {:induction false} MonitorOutputRelaunch(rec: Record, policy: string, cycles: seq<Cycle>)
    requires |rec.output.GetOr("")| <= OutputCap
    requires |cycles| > 0 && RunCycle(rec, ParsePolicy(policy), cycles[0]).again
    ensures var t := Monitor(rec, policy, cycles);
      t.record.output.GetOr("") == Tail(rec.output.GetOr("") + Concat(Printed(cycles[..t.launches])), OutputCap)
    decreases |cycles|, 1
  {
    RelaunchShape(rec, policy, cycles);
    RelaunchOutput(rec, policy, cycles);
  }

  /** `MonitorOutput` for the loop after a relaunching first turn, stated
      on that turn and the rest of the loop. */
  lemma {:induction false} RelaunchOutput(rec: Record, policy: string, cycles: seq<Cycle>)
    requires |rec.output.GetOr("")| <= OutputCap
    requires |cycles| > 0 && RunCycle(rec, ParsePolicy(policy), cycles[0]).again
    ensures var u := RunCycle(rec, ParsePolicy(policy), cycles[0]);
      var rest := Monitor(u.record, policy, cycles[1..]);
      rest.record.output.GetOr("") == Tail(rec.output.GetOr("") + Concat(Printed(cycles[..1 + rest.launches])), OutputCap)
    decreases |cycles|, 0
  {
    var u := RunCycle(rec, ParsePolicy(policy), cycles[0]);
    var rest := Monitor(u.record, policy, cycles[1..]);
    var later := Printed(cycles[1..][..rest.launches]);
    var mid := u.record.output.GetOr("");
    RunCycleOutput(rec, ParsePolicy(policy), cycles[0]);
    assert |mid| <= OutputCap;
    MonitorOutput(u.record, policy, cycles[1..]);
    PrintedPrefix(cycles, rest.launches);
    OutputAcrossRelaunch(rec.output.GetOr(""), cycles[0].child.lines, later, Printed(cycles[..1 + rest.launches]),
                         mid, rest.record.output.GetOr(""));
  }

  /** The string side of a relaunch: a tail kept after the first child's
      lines and again after the later ones is the tail of all of them. */
  lemma OutputAcrossRelaunch(old_: string, lines: seq<string>, later: seq<string>, all: seq<string>,
                             mid: string, final: string)
    requires all == lines + later
    requires mid == Tail(old_ + Concat(lines), OutputCap)
    requires final == Tail(mid + Concat(later), OutputCap)
    ensures final == Tail(old_ + Concat(all), OutputCap)
  {
    TailChain(old_, Concat(lines), Concat(later));
    ConcatAppend(lines, later);
  }

  /** One turn's effect on a subscriber queue: untouched when nothing is
      launched, else the child's lines offered in order. */
  lemma RunCycleQueues(rec: Record, policy: Policy, c: Cycle, q: QueueId)
    requires q in QueuesOf(rec)
    ensures var u := RunCycle(rec, policy, c);
      && q in QueuesOf(u.record)
      && (!u.launched ==> QueuesOf(u.record)[q] == QueuesOf(rec)[q])
      && (u.launched ==> QueuesOf(u.record)[q] == OfferAll(QueuesOf(rec)[q], c.child.lines))
  {
    var r0 := Checkpoint(rec, c.stopAtLaunch);
    if !ShouldStop(r0) {
      FeedQueues(Launch(r0), c.child.lines, q);
    }
  }

  /** Per-subscriber order across relaunches: a queue attached before the
      loop receives every launched child's lines in the order printed,
      dropping only those that arrive while it is full. */
  lemma {:induction false} MonitorQueues(rec: Record, policy: string, cycles: seq<Cycle>, q: QueueId)
    requires q in QueuesOf(rec)
    ensures var t := Monitor(rec, policy, cycles);
      && q in QueuesOf(t.record)
      && QueuesOf(t.record)[q] == OfferAll(QueuesOf(rec)[q], Printed(cycles[..t.launches]))
    decreases |cycles|, 1
  {
    var t := Monitor(rec, policy, cycles);
    if |cycles| == 0 {
      assert Printed(cycles[..t.launches]) == [];
    } else if RunCycle(rec, ParsePolicy(policy), cycles[0]).again {
      MonitorQueuesRelaunch(rec, policy, cycles, q);
    } else {
      var u := RunCycle(rec, ParsePolicy(policy), cycles[0]);
      RunCycleQueues(rec, ParsePolicy(policy), cycles[0], q);
      assert t.record == u.record;
      if !u.launched {
        assert t.launches == 0 && Printed(cycles[..0]) == [];
      } else {
        assert t.launches == 1;
        PrintedPrefix(cycles, 0);
        assert cycles[0].child.lines + Printed(cycles[1..][..0]) == cycles[0].child.lines;
      }
    }
  }

  /** The relaunch case of `MonitorQueues`. */
  lemma {:induction false} MonitorQueuesRelaunch(rec: Record, policy: string, cycles: seq<Cycle>, q: QueueId)
    requires q in QueuesOf(rec)
    requires |cycles| > 0 && RunCycle(rec, ParsePolicy(policy), cycles[0]).again
    ensures var t := Monitor(rec, policy, cycles);
      && q in QueuesOf(t.record)
      && QueuesOf(t.record)[q] == OfferAll(QueuesOf(rec)[q], Printed(cycles[..t.launches]))
    decreases |cycles|, 0
  {
    var u := RunCycle(rec, ParsePolicy(policy), cycles[0]);
    var rest := Monitor(u.record, policy, cycles[1..]);
    RelaunchShape(rec, policy, cycles);
    RunCycleQueues(rec, ParsePolicy(policy), cycles[0], q);
    MonitorQueues(u.record, policy, cycles[1..], q);
    PrintedPrefix(cycles, rest.launches);
    OfferAllAppend(QueuesOf(rec)[q], cycles[0].child.lines, Printed(cycles[1..][..rest.launches]));
  }
}
