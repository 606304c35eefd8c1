# python-executor supervisor core in Dafny

python-executor is a small web service that starts configured Python scripts
as child processes and restarts them according to a per-script policy. It
also keeps each script's recent output and streams it to log viewers. This
project models the service's process-supervision core, all of it in
`main.py`, and proves properties of the model:

- **Restart loop** (`monitor_script`). Each child process is replaced by
  its scripted outcome: the lines it prints and its exit code. The loop is
  a pure function (`Supervisor.Monitor`) over a finite list of cycles.
  - A cycle also says whether a stop request completes just before each
    of the loop's two stop checkpoints. A stop request is the registry
    write of `stop_script` (`Control.StopRecord`).
  - The loop reads the stop flag from the record, as the code does.
  - The policy is the raw string the thread was started with.
    `"on-failure"` and `"always"` are recognised; every other string acts
    like `"never"` (`Runtime.ParsePolicy`).
- **Runtime registry** (`processes`). This is a map from script name to
  record.
  - Records appear lazily: a record created by `setdefault(name, {})` has
    no keys at all. So every field read with `.get(key, default)` is an
    `Option`, and the default is applied with `GetOr`.
  - The modelled operations are the index page's default initialisation,
    the status lookup that defaults to `"stopped"`, and the registry writes
    of explicit start and stop.
  - Each locked block is one atomic step, except where "## Left out"
    names two blocks merged into one.
- **Output fan-out**.
  - `_broadcast_line` offers each line to every subscriber queue of the
    name. Each queue holds at most 1000 lines, and a full queue drops the
    new line.
  - `ws_logs` attaches a new queue to the name and sends the last 2000
    characters of the output. When the viewer disconnects, the queue is
    detached.
  - A subscriber set is a map from queue identity to the lines waiting in
    that queue.

The modules follow these parts:

- `Runtime`: the record, the policy, the output bound and `Tail`.
- `Control`: index initialisation, status, start and stop.
- `Fanout`: broadcast, subscribe and unsubscribe.
- `Supervisor`: the loop.
- `Session`: properties that combine the other modules.

Four facts about the code shape the model:

- A launch does not clear `returncode` (main.py:73-77). The previous
  child's exit code stays until the new child exits
  (`Supervisor.MonitorExitCode`).
- `Popen` is unguarded (main.py:70-72), so there is no launch-failure
  path: a launch error would end the monitor thread.
- Only `start_script` empties the output (main.py:163), and an automatic
  relaunch keeps it (`Supervisor.MonitorOutput`).
- A start is refused only when the status is "running" (main.py:158), and
  only the monitor thread writes "running", after it has launched its child
  (main.py:75). So two starts in quick succession each spawn a monitor
  thread, and two children of one name can run at once
  (`Control.StartBeforeLaunchSpawnsAgain`).

## Model

| member | source | states |
|---|---|---|
| Runtime.ParsePolicy | main.py:99-111 | the loop's policy tests: "on-failure" and "always" are recognised exactly, and every other string means never relaunch |
| Runtime.PolicyName | main.py:102-108 | each policy has a configuration string that reads back as that policy |
| Runtime.Tail | main.py:83 | `[-n:]` keeps min(n, length) characters |
| Runtime.TailSuffix | main.py:83 | the kept characters are the end of the string |
| Runtime.TailAppend | main.py:83 | cutting to 20000 after every line gives the same output as cutting once at the end |
| Runtime.TailOfTail | main.py:218 | the last 2000 characters of the 20000-character tail are the last 2000 of the whole history |
| Control.ConfiguredPolicy | main.py:164-169 | a script's policy is its "policy" key, else "on-failure" |
| Control.DefaultRecord | main.py:121 | the default record is "stopped", with the configured policy, no stop flag, an empty subscriber set and no output, exit code or process |
| Control.InitRuntime | main.py:119-121 | known records are kept untouched; every configured but unknown name gets the default record; no other name appears; the bounds are preserved |
| Control.StatusOf | main.py:125 | the record's status, or "stopped" when the name or its status key is missing |
| Control.Statuses | main.py:242-244 | the status snapshot has exactly the configured names, each with its looked-up status |
| Control.IndexStatuses | main.py:119-125 | after initialisation the index shows a record's own status, and "stopped" for a name that had no record |
| Control.ResetForStart | main.py:161-166 | the reset clears the stop flag, empties the output, refreshes the policy, keeps an existing subscriber set or creates an empty one, and touches no other key |
| Control.Start | main.py:154-170 | not found iff the name is not configured; no change iff the record is "running"; otherwise only this record changes: stop flag cleared, output emptied, policy refreshed, subscribers kept (or created), status, exit code and process left as they were; the command is `python3 path` plus the args, and the policy string is the configured one |
| Control.StopRecord | main.py:182-191 | a stop sets the stop flag and status "stopped" and changes nothing else in the record |
| Control.Stop | main.py:179-191 | an unknown name leaves the registry unchanged; a known record is stopped; no other record changes |
| Control.StopIdempotent | main.py:179-191 | stopping twice is the same as stopping once |
| Control.StartAfterStopClearsFlag | main.py:157-166 | a start after a stop always goes ahead, clears the stop flag and leaves status "stopped" |
| Control.StartBeforeLaunchSpawnsAgain | main.py:157-170 | a second start before the first monitor has launched its child is not refused, so it spawns a second monitor |
| Fanout.Offer | main.py:51-55 | `put_nowait`: a full queue is unchanged, any other gets the line at its end |
| Fanout.OfferAll | main.py:50-55 | offering lines one by one to a queue with no reader keeps the queue and appends the first lines that fit |
| Fanout.OfferAllAppend | main.py:81-84 | offering two batches in turn is the same as offering them together |
| Fanout.SubscribersOf | main.py:49 | a name's subscriber queues, empty for an unknown name or a missing set |
| Fanout.Deliver | main.py:49-55 | the record keeps the same queue identities, each queue is offered the line, and nothing else changes |
| Fanout.Broadcast | main.py:47-55 | only the named record's queues change, as `Deliver` says; an unknown name or a missing set leaves the registry unchanged; the bounds are preserved |
| Fanout.BroadcastDelivery | main.py:50-55 | a queue at capacity 1000 is left unchanged; any other queue gets the line at its end and stays within 1000 |
| Fanout.Attach | main.py:216 | the subscriber set is created if missing and the queue is added empty; a queue already in the set is kept as it is |
| Fanout.Subscribe | main.py:214-218 | the record is created if missing, the queue is attached and no other record changes; the replay is the last 2000 characters of the output |
| Fanout.Detach | main.py:230-232 | a queue in the set is removed; otherwise the record is unchanged |
| Fanout.Unsubscribe | main.py:229-232 | a queue that is absent, or whose set or record is missing, leaves the registry unchanged and creates nothing; a present queue is removed from its set only |
| Fanout.SubscribeUnsubscribe | main.py:214-232 | attaching a new queue and then detaching it restores the registry when the name had a subscriber set; otherwise it leaves the record (created empty if missing) with an empty subscriber set |
| Fanout.DeliverAll | main.py:81-84 | successive broadcasts change only the queues, keep the same queue identities and keep every queue within 1000 |
| Fanout.DeliverAllQueue | main.py:50-55 | over many broadcasts, each queue receives the lines as `OfferAll` says |
| Fanout.SubscriberSeesLaterLines | main.py:214-216 | with nothing read from it, a newly attached queue holds the first min(1000, n) of the n lines broadcast after it was attached, in order |
| Supervisor.Decide | main.py:99-111 | a nonzero exit is "error" and is relaunched iff the policy is "on-failure" or "always"; a zero exit is "stopped" and is relaunched iff the policy is "always" |
| Supervisor.ShouldStop | main.py:62 | the loop sees a stop request exactly when the flag is set; a missing key reads as no request |
| Supervisor.Checkpoint | main.py:182-191 | a stop request landing at a checkpoint leaves the flag set and status "stopped" and changes nothing else; with no request the record is unchanged |
| Supervisor.Launch | main.py:73-77 | a launch sets status "running" and the process, keeps the output (or creates it empty), and leaves everything else, the exit code included |
| Supervisor.AppendOutput | main.py:83 | the output becomes the last 20000 characters of old output plus the line; nothing else changes |
| Supervisor.RecordExit | main.py:88-89 | the exit code is recorded and nothing else in the record changes |
| Supervisor.Feed | main.py:81-84 | reading lines changes only the output and the queue contents, keeps the same queue identities, and preserves the bounds |
| Supervisor.FeedOutput | main.py:81-83 | after the read loop, the output is the 20000-character tail of the old output plus all lines read |
| Supervisor.FeedQueues | main.py:81-84 | during the read loop, each subscriber queue is offered the lines in order |
| Supervisor.RunCycle | main.py:60-111 | a turn that launches nothing writes only "stopped" and does not continue; a launch writes "running" first and records the exit code; the final status is never "running"; continuing needs a launch and an unchanged stop flag; the policy, whether a subscriber set exists, the queue identities and the bounds are kept |
| Supervisor.Monitor | main.py:58-111 | launches never exceed the cycles; a loop that has not ended has launched a child in every cycle; the last status written is the record's status and is not "running"; the policy, the queue identities and the bounds are kept |
| Supervisor.Supervise | main.py:58-111 | the monitor thread changes only its own record, as `Monitor` says, and preserves the bounds |
| Supervisor.MonitorExitCode | main.py:86-89 | after the loop, the exit code is the last launched child's, or unchanged if nothing was launched |
| Supervisor.StopSeenBeforeLaunch | main.py:61-66 | a stop flag at the pre-launch checkpoint ends the loop "stopped" with no launch and the output untouched, whatever the policy |
| Supervisor.StopSeenAfterExit | main.py:91-97 | a stop flag at the post-exit checkpoint ends the loop "stopped" after exactly that one child, whatever its exit code or the policy |
| Supervisor.FirstTurnLaunches | main.py:61-77 | a clear flag and no stop request at the first checkpoint mean a child is launched |
| Supervisor.FirstTurnUnstopped | main.py:99-111 | with no stop request, the first turn writes "running" then the verdict; no relaunch ends the loop there, and a relaunch launches again unless stopped first |
| Supervisor.FailedExit | main.py:99-104 | a failed child leaves "error"; it is relaunched under "on-failure" and "always", and under any other string the loop ends in "error" |
| Supervisor.CleanExit | main.py:105-111 | a clean child leaves "stopped"; only "always" relaunches it |
| Supervisor.UnknownPolicyActsAsNever | main.py:102-111 | an unrecognised policy string behaves exactly like "never" and launches at most one child |
| Supervisor.RestartsEveryChild | main.py:60-111 | when no stop request comes and every exit is one the policy retries, every child is launched and the statuses are the "running"/verdict pairs in order |
| Supervisor.RunCycleOutput | main.py:77-83 | a launching turn appends its child's lines to the output, with the 20000 bound |
| Supervisor.MonitorOutput | main.py:77-83 | automatic relaunches keep the history: the final output is the 20000-character tail of the old output plus everything the launched children printed, in order |
| Supervisor.MonitorOutputRelaunch | main.py:102-110 | the relaunch case of the output history |
| Supervisor.RunCycleQueues | main.py:81-84 | a turn leaves a subscriber queue unchanged if it launches nothing, and otherwise offers it the child's lines |
| Supervisor.MonitorQueues | main.py:81-84 | a queue attached before the loop receives every launched child's lines in order, across relaunches, dropping only the lines that arrive while it is full |
| Supervisor.MonitorQueuesRelaunch | main.py:102-110 | the relaunch case of the queue order |
| Session.StartThenMonitor | main.py:161-170 | after an explicit start and its monitor, the output is the tail of what the children printed since the start, the subscriber queues are the ones the name had before the start; without an early stop, a child is launched |
| Session.StoppedStaysStopped | main.py:182 | once stopped, a monitor of that name launches nothing and ends "stopped" |
| Session.StopAfterMonitor | main.py:179-191 | stopping after the loop has finished leaves "stopped" with the flag set, and a second stop changes nothing |
| Session.LateSubscriberSnapshot | main.py:218 | a viewer attaching after a run is sent the last 2000 characters of everything printed since the start |
| Session.SubscriberSeesRun | main.py:214-216 | with nothing read from it, the queue of a viewer attached between the start and the run holds the first min(1000, n) of the n lines printed, in order |
| Session.SingleRunUnderNever | main.py:58-111 | under "never", one unstopped child gives one launch, its verdict as status, its exit code and the last 20000 characters of its lines as the output |
| Session.CleanRunScenario | main.py:105-111 | a child printing A, B, C and exiting 0 under "never" ends "stopped" with exit code 0 and output "A\nB\nC\n" |
| Session.CrashLoopScenario | main.py:99-104 | three crashes under "on-failure" are all relaunched, with statuses alternating "running" and "error" |

## Left out

- Web layer (FastAPI routes, HTML templates, redirects, websocket send
  and receive, main.py:115-249): I/O. Only the registry writes of the
  handlers are modelled.
- The `script_detail` page (main.py:132-149): a read-only view that
  depends on wall-clock time.
- Persistence (`load_scripts`, `save_scripts`, `add_script`,
  main.py:25-35 and main.py:200-206): file I/O and `Path` parsing. The
  configuration is a parameter (`map<string, ScriptMeta>`).
- Process control (`Popen`, `terminate`, `wait(timeout=5)`, `kill`,
  `poll`): operating-system calls. Each child is a scripted list of lines
  and an exit code.
- Launch exceptions: `Popen` errors are not caught in the code, so there
  is no launch-failure path to model.
- Threads, the lock and `run_in_executor`: each locked block is one
  atomic step, except for the two merges named below, and interleavings
  are not modelled.
- The thread handle (main.py:172) is not modelled. The process handle and
  the start time appear only as `hasProcess`, set at each launch.
- `time.time()`, running time and the `time.sleep(2)` back-off
  (main.py:68, 103, 109): wall-clock time.
- The consumer side of a subscriber queue (`q.get`, main.py:224): a
  blocking read by another thread. Queues only fill, so the queue lemmas
  say what a queue holds when nothing reads from it, not what a viewer
  that keeps up receives.
- Output decoding: `text=True` (main.py:70-71) decodes the child's output
  strictly, and a decoding error in the read loop (main.py:81) ends the
  thread with status still "running" and no exit code written. Children's
  lines here are already decoded strings, so `Supervisor.Monitor` and
  `Supervisor.RunCycle` never end in "running".
- `demo_script.py`: a sample child program with no supervisor logic.
- Control.Stop: `stop_script` writes the flag and the status in two
  locked blocks, around the termination of the child. The model applies
  both at once, at one of the loop's checkpoints. So a status write by
  the loop that falls between the two blocks is not modelled.
- Supervisor.Feed: the output append (main.py:82-83) and the broadcast's
  snapshot of the subscriber set (main.py:48-49) are one step here. A
  viewer attaching between them gets the line twice, once in its replay
  and once in its queue. Viewers attaching mid-run are not modelled: the
  model attaches them only before a monitor run or after it.
- Supervisor.Monitor: the list of cycles is finite. A loop that
  relaunches on every cycle is cut off when the list runs out (`ended`
  is false), so endless crash loops are seen only up to that length.
