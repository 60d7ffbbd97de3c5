/** `BaseWorker` of `hived.worker`: one protected processing attempt, the
 routing of bad messages to a garbage queue, and the restart loop that
 backs off after a crash.

 The queue is an append-only log of the calls the worker makes on it
 (`put`, `ack`) interleaved with the `time.sleep` calls of the loop.
 Application hooks are functions that either return or raise, and may set
 the worker's `stopped` flag as a side effect.
 */
module Worker {
  import opened Outcomes
  import opened Messages

  /** The opaque token `queue.get()` hands out with each message. */
  type AckHandle = nat

  /** What a task class builds from a message body. */
  datatype Task = Task(token: nat)

  datatype Event =
    | Published(put: Put)
    | Acked(handle: AckHandle)
    | Slept(seconds: nat)

  /** The `put` calls of a log, in order. */
  function Puts(log: seq<Event>): seq<Put> {
    if |log| == 0 then []
    else (if log[0].Published? then [log[0].put] else []) + Puts(log[1..])
  }

  /** The `ack` calls of a log, in order. */
  function Acks(log: seq<Event>): seq<AckHandle> {
    if |log| == 0 then []
    else (if log[0].Acked? then [log[0].handle] else []) + Acks(log[1..])
  }

  /** The durations passed to `time.sleep`, in order. */
  function Sleeps(log: seq<Event>): seq<nat> {
    if |log| == 0 then []
    else (if log[0].Slept? then [log[0].seconds] else []) + Sleeps(log[1..])
  }

  /** The three views of a one-event log. */
  lemma Singleton(e: Event)
    ensures Puts([e]) == if e.Published? then [e.put] else []
    ensures Acks([e]) == if e.Acked? then [e.handle] else []
    ensures Sleeps([e]) == if e.Slept? then [e.seconds] else []
  {
    assert [e][1..] == [];
  }

  lemma {:induction false} PutsAppend(a: seq<Event>, b: seq<Event>)
    ensures Puts(a + b) == Puts(a) + Puts(b)
  {
    if |a| == 0 {
      assert a + b == b;
    } else {
      assert (a + b)[0] == a[0];
      assert (a + b)[1..] == a[1..] + b;
      PutsAppend(a[1..], b);
    }
  }

  lemma {:induction false} SleepsAppend(a: seq<Event>, b: seq<Event>)
    ensures Sleeps(a + b) == Sleeps(a) + Sleeps(b)
  {
    if |a| == 0 {
      assert a + b == b;
    } else {
      assert (a + b)[0] == a[0];
      assert (a + b)[1..] == a[1..] + b;
      SleepsAppend(a[1..], b);
    }
  }

  lemma {:induction false} AcksAppend(a: seq<Event>, b: seq<Event>)
    ensures Acks(a + b) == Acks(a) + Acks(b)
  {
    if |a| == 0 {
      assert a + b == b;
    } else {
      assert (a + b)[0] == a[0];
      assert (a + b)[1..] == a[1..] + b;
      AcksAppend(a[1..], b);
    }
  }

  // ---------------------------------------------------------------------
  // Garbage routing

  /** `<queue_name>_garbage`, the queue that bad messages are moved to. */
  function GarbageQueue(queueName: string): string {
    queueName + "_garbage"
  }

  /** `{'garbage_reason': str(error)}`. */
  function GarbageRecord(error: Error): Value {
    Dict(map["garbage_reason" := Str(error.text)])
  }

  /** The arguments of one `send_message_to_garbage(message, ack, error)` call. */
  datatype GarbageCall = GarbageCall(message: Value, handle: AckHandle, error: Error)

  /** `send_message_to_garbage`: publish the reason to the garbage queue on the
      default exchange, then acknowledge the original message. */
  function SendToGarbage(queueName: string, call: GarbageCall): (log: seq<Event>)
    // exactly one publication, to the garbage queue on exchange ''
    ensures Puts(log) == [Put(GarbageRecord(call.error), GarbageQueue(queueName), "")]
    // exactly one acknowledgement, of the original message, and it comes last
    ensures Acks(log) == [call.handle]
    ensures log[|log| - 1] == Acked(call.handle)
    ensures Sleeps(log) == []
  {
    var put := Put(GarbageRecord(call.error), GarbageQueue(queueName), "");
    var log := [Published(put)] + [Acked(call.handle)];
    Singleton(Published(put));
    Singleton(Acked(call.handle));
    PutsAppend([Published(put)], [Acked(call.handle)]);
    AcksAppend([Published(put)], [Acked(call.handle)]);
    SleepsAppend([Published(put)], [Acked(call.handle)]);
    log
  }

  // ---------------------------------------------------------------------
  // One processing attempt

  /** How a hook call ended, and whether it set `self.stopped`. */
  datatype Call<T> = Call(result: Result<T>, setsStopped: bool)

  /** The overridable steps of an attempt. */
  datatype Hooks = Hooks(
    validate: Value -> Call<()>,
    getTask: Value -> Call<Task>,
    execute: Task -> Result<()>)

  /** The default `get_task(message)`: one call of `task_class(message)`,
      whose task (or exception) it returns unchanged. */
  function GetTask(taskClass: Value -> Result<Task>, message: Value): (c: Call<Task>)
    ensures c.result == taskClass(message)
    ensures !c.setsStopped
  {
    Call(taskClass(message), false)
  }

  /** A message `queue.get()` returned, with its ack token. */
  datatype Delivery = Delivery(body: Value, handle: AckHandle)

  /** How an attempt ended: the message was routed to garbage, the attempt
      raised (a crash, left to the restart loop), or the task ran. */
  datatype Outcome = Garbage(call: GarbageCall) | Crash(error: Error) | Ok

  /** One attempt: how it ended, what it did to the queue, and whether it
      set `stopped`. */
  datatype Attempt = Attempt(outcome: Outcome, log: seq<Event>, setsStopped: bool)

  /** A message is rejected when `validate_message` raises, or when it returns
      and `get_task` raises. */
  predicate Rejects(hooks: Hooks, message: Value) {
    || hooks.validate(message).result.Raised?
    || hooks.getTask(message).result.Raised?
  }

  /** `protected_run()`: fetch, validate, build the task, run it, acknowledge.
      `fetched` is how `queue.get()` ended. */
  function ProtectedRun(queueName: string, fetched: Result<Delivery>, hooks: Hooks): (r: Attempt)
    // classification: a rejected message is garbage, a failing fetch or task a crash
    ensures r.outcome.Garbage? <==> fetched.Returned? && Rejects(hooks, fetched.value.body)
    ensures r.outcome.Crash? <==> || fetched.Raised?
                                  || (!Rejects(hooks, fetched.value.body)
                                      && hooks.execute(hooks.getTask(fetched.value.body).result.value).Raised?)
    // garbage: one send_message_to_garbage call with the fetched message, its ack and the error raised
    ensures r.outcome.Garbage? ==>
              && r.outcome.call.message == fetched.value.body
              && r.outcome.call.handle == fetched.value.handle
              && r.outcome.call.error == (var v := hooks.validate(fetched.value.body).result;
                                          if v.Raised? then v.error
                                          else hooks.getTask(fetched.value.body).result.error)
              && r.log == SendToGarbage(queueName, r.outcome.call)
    // a crash leaves the queue untouched, so the message is not acknowledged
    ensures r.outcome.Crash? ==> r.log == []
    // the exception that propagates: the fetch's, or else the task's
    ensures r.outcome.Crash? ==>
              r.outcome.error == if fetched.Raised? then fetched.error
                                 else hooks.execute(hooks.getTask(fetched.value.body).result.value).error
    ensures r.outcome.Ok? ==> r.log == [Acked(fetched.value.handle)]
    ensures Acks(r.log) == if r.outcome.Crash? then [] else [fetched.value.handle]
    ensures Sleeps(r.log) == []
    // `stopped` is set exactly when a hook that ran set it
    ensures fetched.Raised? ==> !r.setsStopped
    ensures fetched.Returned? ==>
              (r.setsStopped <==> || hooks.validate(fetched.value.body).setsStopped
                                  || (hooks.validate(fetched.value.body).result.Returned?
                                      && hooks.getTask(fetched.value.body).setsStopped))
  {
    match fetched
    case Raised(e) => Attempt(Crash(e), [], false)
    case Returned(d) =>
      var v := hooks.validate(d.body);
      if v.result.Raised? then
        var call := GarbageCall(d.body, d.handle, v.result.error);
        Attempt(Garbage(call), SendToGarbage(queueName, call), v.setsStopped)
      else
        var t := hooks.getTask(d.body);
        var stop := v.setsStopped || t.setsStopped;
        if t.result.Raised? then
          var call := GarbageCall(d.body, d.handle, t.result.error);
          Attempt(Garbage(call), SendToGarbage(queueName, call), stop)
        else
          match hooks.execute(t.result.value)
          case Raised(e) => Attempt(Crash(e), [], stop)
          case Returned(_) => Attempt(Ok, [Acked(d.handle)], stop)
  }

  // ---------------------------------------------------------------------
  // The restart loop

  /** A backoff schedule: `delay(k)` is the sleep after the crash numbered
      `k` (from 0) in one `run`. */
  ghost predicate StrictlyIncreasing(delay: nat -> nat) {
    forall k: nat :: delay(k) < delay(k + 1)
  }

  ghost predicate IncreasingSeq(s: seq<nat>) {
    forall i, j :: 0 <= i < j < |s| ==> s[i] < s[j]
  }

  lemma {:induction false} DelayMonotone(delay: nat -> nat, i: nat, j: nat)
    requires StrictlyIncreasing(delay)
    requires i < j
    ensures delay(i) < delay(j)
    decreases j - i
  {
    if i + 1 < j {
      DelayMonotone(delay, i, j - 1);
      assert delay(j - 1) < delay(j);
    }
  }

  /** The number of attempts that crashed. */
  function CrashCount(attempts: seq<Attempt>): (n: nat)
    ensures n <= |attempts|
  {
    if |attempts| == 0 then 0
    else CrashCount(attempts[..|attempts| - 1]) + (if attempts[|attempts| - 1].outcome.Crash? then 1 else 0)
  }

  /** What one iteration of the loop adds to the log: the attempt's own
      calls, and after a crash a sleep of the delay for the crash numbered
      `crashesBefore`. */
  function StepLog(a: Attempt, crashesBefore: nat, delay: nat -> nat): seq<Event> {
    a.log + (if a.outcome.Crash? then [Slept(delay(crashesBefore))] else [])
  }

  /** The reference log of a run whose attempts were `attempts`, in order. */
  function RunLog(attempts: seq<Attempt>, delay: nat -> nat): seq<Event> {
    if |attempts| == 0 then []
    else
      var init := attempts[..|attempts| - 1];
      RunLog(init, delay) + StepLog(attempts[|attempts| - 1], CrashCount(init), delay)
  }

  /** The first `n` delays of a schedule. */
  function Schedule(delay: nat -> nat, n: nat): (s: seq<nat>)
    ensures |s| == n
    ensures forall k :: 0 <= k < n ==> s[k] == delay(k)
  {
    if n == 0 then [] else Schedule(delay, n - 1) + [delay(n - 1)]
  }

  lemma StepLogSleeps(a: Attempt, crashesBefore: nat, delay: nat -> nat)
    requires Sleeps(a.log) == []
    ensures Sleeps(StepLog(a, crashesBefore, delay)) == if a.outcome.Crash? then [delay(crashesBefore)] else []
  {
    var tail: seq<Event> := if a.outcome.Crash? then [Slept(delay(crashesBefore))] else [];
    SleepsAppend(a.log, tail);
    if a.outcome.Crash? {
      assert tail[1..] == [];
    }
  }

  /** The sleeps of a run are exactly the first delays of the schedule, one
      per crash, so no crash goes without a pause. */
  lemma {:induction false} RunLogSleeps(attempts: seq<Attempt>, delay: nat -> nat)
    requires forall k :: 0 <= k < |attempts| ==> Sleeps(attempts[k].log) == []
    ensures Sleeps(RunLog(attempts, delay)) == Schedule(delay, CrashCount(attempts))
  {
    if |attempts| > 0 {
      var init := attempts[..|attempts| - 1];
      var last := attempts[|attempts| - 1];
      assert forall k :: 0 <= k < |init| ==> init[k] == attempts[k];
      RunLogSleeps(init, delay);
      SleepsAppend(RunLog(init, delay), StepLog(last, CrashCount(init), delay));
      StepLogSleeps(last, CrashCount(init), delay);
    }
  }

  /** Under an increasing schedule, each sleep is longer than the one before. */
  lemma {:induction false} RunLogSleepsIncrease(attempts: seq<Attempt>, delay: nat -> nat)
    requires forall k :: 0 <= k < |attempts| ==> Sleeps(attempts[k].log) == []
    requires StrictlyIncreasing(delay)
    ensures IncreasingSeq(Sleeps(RunLog(attempts, delay)))
  {
    RunLogSleeps(attempts, delay);
    var s := Sleeps(RunLog(attempts, delay));
    forall i, j | 0 <= i < j < |s|
      ensures s[i] < s[j]
    {
      DelayMonotone(delay, i, j);
    }
  }

  /** The sleep facts for the attempts a run actually made. */
  lemma PrefixRunSleeps(attempts: seq<Attempt>, n: nat, delay: nat -> nat)
    requires forall k :: 0 <= k < |attempts| ==> Sleeps(attempts[k].log) == []
    requires StrictlyIncreasing(delay)
    requires n <= |attempts|
    ensures |Sleeps(RunLog(attempts[..n], delay))| == CrashCount(attempts[..n])
    ensures IncreasingSeq(Sleeps(RunLog(attempts[..n], delay)))
  {
    var done := attempts[..n];
    assert forall k :: 0 <= k < |done| ==> done[k] == attempts[k];
    RunLogSleeps(done, delay);
    RunLogSleepsIncrease(done, delay);
  }

  /** One more iteration extends the reference log by that iteration's step. */
  lemma RunLogExtend(attempts: seq<Attempt>, i: nat, delay: nat -> nat)
    requires i < |attempts|
    ensures CrashCount(attempts[..i + 1]) == CrashCount(attempts[..i]) + (if attempts[i].outcome.Crash? then 1 else 0)
    ensures RunLog(attempts[..i + 1], delay) == RunLog(attempts[..i], delay) + StepLog(attempts[i], CrashCount(attempts[..i]), delay)
  {
    var next := attempts[..i + 1];
    assert next[..i] == attempts[..i] && next[i] == attempts[i];
  }

  /** `run()`: attempts repeat while `stopped` is unset; a crashed attempt is
      followed by a sleep, also when that attempt set `stopped`.
      `attempts` are the results of successive `protected_run` calls (the
      base one or an override); the loop ends early when they run out. */
  method Run(attempts: seq<Attempt>, delay: nat -> nat) returns (log: seq<Event>, iterations: nat, stopped: bool)
    requires forall k :: 0 <= k < |attempts| ==> Sleeps(attempts[k].log) == []
    requires StrictlyIncreasing(delay)
    ensures iterations <= |attempts|
    // the loop ends with the first attempt that sets `stopped`, and not before
    ensures forall k :: 0 <= k < iterations - 1 ==> !attempts[k].setsStopped
    ensures stopped <==> 0 < iterations && attempts[iterations - 1].setsStopped
    ensures !stopped ==> iterations == |attempts|
    ensures log == RunLog(attempts[..iterations], delay)
    // one sleep per crash, each longer than the last
    ensures |Sleeps(log)| == CrashCount(attempts[..iterations])
    ensures IncreasingSeq(Sleeps(log))
  {
    log := [];
    iterations := 0;
    stopped := false;
    var crashes := 0;
    while !stopped && iterations < |attempts|
      invariant iterations <= |attempts|
      invariant forall k :: 0 <= k < iterations - 1 ==> !attempts[k].setsStopped
      invariant stopped <==> 0 < iterations && attempts[iterations - 1].setsStopped
      invariant crashes == CrashCount(attempts[..iterations])
      invariant log == RunLog(attempts[..iterations], delay)
    {
      var a := attempts[iterations];
      RunLogExtend(attempts, iterations, delay);
      log := log + StepLog(a, crashes, delay);
      if a.outcome.Crash? {
        crashes := crashes + 1;
      }
      stopped := a.setsStopped;
      iterations := iterations + 1;
    }
    PrefixRunSleeps(attempts, iterations, delay);
  }

  // ---------------------------------------------------------------------
  // Consequences for single attempts and whole runs

  /** A message that `validate_message` rejects is sent to garbage once, with
      the fetched message, its ack token and the raised error; no task is built. */
  lemma ValidateFailureIsGarbage(queueName: string, d: Delivery, hooks: Hooks)
    requires hooks.validate(d.body).result.Raised?
    ensures var r := ProtectedRun(queueName, Returned(d), hooks);
            && r.outcome == Garbage(GarbageCall(d.body, d.handle, hooks.validate(d.body).result.error))
            && r.setsStopped == hooks.validate(d.body).setsStopped
  {
  }

  /** A message that passes validation but whose `get_task` raises is sent to
      garbage once in the same way, with the `get_task` error. */
  lemma GetTaskFailureIsGarbage(queueName: string, d: Delivery, hooks: Hooks)
    requires hooks.validate(d.body).result.Returned?
    requires hooks.getTask(d.body).result.Raised?
    ensures var r := ProtectedRun(queueName, Returned(d), hooks);
            && r.outcome == Garbage(GarbageCall(d.body, d.handle, hooks.getTask(d.body).result.error))
            && r.setsStopped == (hooks.validate(d.body).setsStopped || hooks.getTask(d.body).setsStopped)
  {
  }

  /** An attempt of a worker whose `get_task` is the default one: the message
      is garbage exactly when `validate_message` or `task_class` raises, with
      the `task_class` error once validation passed; when both return, the
      attempt crashes exactly when the built task raises. The default
      `get_task` never sets `stopped`. */
  lemma DefaultGetTaskAttempt(queueName: string, d: Delivery, validate: Value -> Call<()>,
                              taskClass: Value -> Result<Task>, execute: Task -> Result<()>)
    ensures var r := ProtectedRun(queueName, Returned(d), Hooks(validate, m => GetTask(taskClass, m), execute));
            && (r.outcome.Garbage? <==> validate(d.body).result.Raised? || taskClass(d.body).Raised?)
            && (r.outcome.Garbage? && validate(d.body).result.Returned? ==>
                  r.outcome.call == GarbageCall(d.body, d.handle, taskClass(d.body).error))
            && (validate(d.body).result.Returned? && taskClass(d.body).Returned? ==>
                  (r.outcome.Crash? <==> execute(taskClass(d.body).value).Raised?))
            && (r.setsStopped <==> validate(d.body).setsStopped)
  {
  }

  /** A task that raises is a crash: its error propagates, and the message is
      neither published nor acknowledged. */
  lemma TaskFailureIsCrash(queueName: string, d: Delivery, hooks: Hooks)
    requires !Rejects(hooks, d.body)
    requires hooks.execute(hooks.getTask(d.body).result.value).Raised?
    ensures var r := ProtectedRun(queueName, Returned(d), hooks);
            && r.outcome == Crash(hooks.execute(hooks.getTask(d.body).result.value).error)
            && Puts(r.log) == [] && Acks(r.log) == []
  {
  }

  /** The hooks of the worker's bad-message test: `validate_message` sets
      `stopped` and raises `bad bad bad`. */
  function RejectingHooks(): Hooks {
    Hooks(m => Call(Raised(Error("bad bad bad")), true), m => Call(Returned(Task(0)), false), t => Returned(()))
  }

  /** One attempt of the worker's bad-message test ends in garbage and sets `stopped`. */
  lemma BadMessageAttempt()
    ensures var call := GarbageCall(Dict(map[]), 1, Error("bad bad bad"));
            ProtectedRun("myqueue", Returned(Delivery(Dict(map[]), 1)), RejectingHooks())
              == Attempt(Garbage(call), SendToGarbage("myqueue", call), true)
  {
    ValidateFailureIsGarbage("myqueue", Delivery(Dict(map[]), 1), RejectingHooks());
  }

  /** The queue calls of that attempt: one garbage record and one ack. */
  lemma BadMessageGarbage()
    ensures var log := SendToGarbage("myqueue", GarbageCall(Dict(map[]), 1, Error("bad bad bad")));
            && Puts(log) == [Put(Dict(map["garbage_reason" := Str("bad bad bad")]), "myqueue_garbage", "")]
            && Acks(log) == [1]
            && Sleeps(log) == []
  {
    assert GarbageQueue("myqueue") == "myqueue_garbage";
  }

  /** A run that stops after its first attempt logs only that attempt's step. */
  lemma FirstAttemptLog(attempts: seq<Attempt>, delay: nat -> nat)
    requires 0 < |attempts|
    ensures RunLog(attempts[..1], delay) == StepLog(attempts[0], 0, delay)
  {
    RunLogExtend(attempts, 0, delay);
    assert attempts[..0] == [];
  }

  /** The worker's bad-message test: the queue keeps returning `({}, 1)` and
      `validate_message` sets `stopped` and raises `bad bad bad`. The run ends
      after one attempt, having published one garbage record to
      `myqueue_garbage` on the default exchange and acknowledged token 1. */
  method BadMessageRun(delay: nat -> nat) returns (log: seq<Event>)
    requires StrictlyIncreasing(delay)
    ensures Puts(log) == [Put(Dict(map["garbage_reason" := Str("bad bad bad")]), "myqueue_garbage", "")]
    ensures Acks(log) == [1]
    ensures Sleeps(log) == []
  {
    var call := GarbageCall(Dict(map[]), 1, Error("bad bad bad"));
    // each delivery of the test yields this attempt (BadMessageAttempt)
    var a := Attempt(Garbage(call), SendToGarbage("myqueue", call), true);
    var attempts := [a, a];
    var iterations, stopped;
    log, iterations, stopped := Run(attempts, delay);
    assert iterations == 1;
    FirstAttemptLog(attempts, delay);
    assert attempts[0] == a;
    assert a.log + [] == a.log;
    assert log == a.log;
    BadMessageGarbage();
  }

  /** The worker's backoff test: `protected_run` raises twice and sets
      `stopped` during the second attempt. Both crashes are followed by a
      sleep, and the second sleep is longer than the first. */
  method TwoCrashRun(delay: nat -> nat) returns (log: seq<Event>)
    requires StrictlyIncreasing(delay)
    ensures |Sleeps(log)| == 2
    ensures Sleeps(log)[0] < Sleeps(log)[1]
  {
    var e := Error("bad bad bad");
    var attempts := [Attempt(Crash(e), [], false), Attempt(Crash(e), [], true)];
    var iterations, stopped;
    log, iterations, stopped := Run(attempts, delay);
    assert attempts[..iterations] == attempts;
    assert attempts[..1] == [attempts[0]];
  }
}
