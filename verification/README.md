# hived: worker loop, trail context and tracing id, in Dafny

This project models the core of `hived`, a framework for long-running
message-queue consumers. It has three parts.

- **Worker** (`worker.dfy`, module `Worker`). This is `BaseWorker`'s
  processing state machine. One `protected_run` attempt fetches a message
  and its ack token. It then runs `validate_message` and `get_task`, and
  finally executes the task. A message rejected by either hook goes to
  `<queue_name>_garbage` on the default exchange `''`: one
  `{'garbage_reason': str(error)}` record is published, then the message is
  acknowledged. An attempt that raises is a crash. The `run` loop repeats
  attempts while `stopped` is unset, and sleeps after every crash. Each
  sleep is strictly longer than the one before.
- **Trail** (`trail.dfy`, module `Trail`). This is the per-context trail of
  `hived.trail`: an id, a live flag and a bound queue. It covers
  `set_trail`, `set_queue` and `get_id`; the trail's `generate_id` is
  `Tracing.GenerateId`. `trace` publishes one `{time, type, process, data}`
  record with routing key `trace` on exchange `trail`, unless tracing is
  disabled, no queue is bound or `put` raises. `trace_exception` makes one `trace`
  call and swallows its failure.
- **Tracing id** (`tracing.dfy`, module `Tracing`). These are `generate_id`,
  `get_id` and `set_id` of `hived/tracing.py`, over an explicit map from
  execution context to stored id.

`isotime.dfy` (module `IsoTime`) holds the second-precision ISO-8601 format
of the `time` field, `YYYY-MM-DDTHH:MM:SS`. It comes with a parser and
round-trip lemmas in both directions. `outcomes.dfy` models `None` and
exceptions as values. `messages.dfy` models the published bodies (nested
mappings) and `put` calls.

The queue is an append-only event log: `Published(put)`, `Acked(handle)`
and `Slept(seconds)`. `Puts`, `Acks` and `Sleeps` give its three views.
Application hooks are functions. Each returns or raises, and reports
whether it set `stopped`.

The worker and the trail are modelled from what `tests/test_worker.py` and
`tests/test_trail.py` assert, and no further. Where a case is not asserted,
the model makes a choice; each choice is listed under "## Left out".

A sleep is recorded even after the crash during which `stopped` was set.
`tests/test_worker.py:38-50` requires this: the second attempt sets
`stopped` and raises, and the test reads two sleep durations.

## Model

| member | source | states |
|---|---|---|
| Tracing.GenerateId | hived/tracing.py:8-9 | `generate_id()` returns exactly the string the uuid draw yields (also the trail's `generate_id`, whose test expects the patched `uuid4` value back), and that id is never empty, so it is always truthy |
| Tracing.GetId | hived/tracing.py:12-13 | `get_id` answers `None` exactly in a context where no id was ever set |
| Tracing.SetId | hived/tracing.py:16-17 | `generate_id` is consulted if and only if the given id is falsy; the stored id is never falsy; a truthy id is stored verbatim, a falsy one is replaced by the generated id; every other context reads the same id as before |
| Tracing.GetIdBeforeSet | hived/tracing.py:12-13 | before any `set_id`, `get_id` is `None` in every context |
| Tracing.LastSetWins | hived/tracing.py:16-17 | after two `set_id` calls in one context, `get_id` returns what the second one stored |
| Tracing.ContextsAreIsolated | hived/tracing.py:5-17 | `set_id` calls in two different contexts do not interfere, in either order |
| IsoTime.Format | tests/test_trail.py:41-53 | a valid date-time renders as 19 characters with `-`, `-`, `T`, `:`, `:` at offsets 4, 7, 10, 13, 16 and zero-padded digits elsewhere, each field holding its component |
| IsoTime.Parse | tests/test_trail.py:53 | a string that parses has the timestamp layout and names a real date-time (month, day in month, hour, minute, second in range) |
| IsoTime.ParseFormat | tests/test_trail.py:41-53 | every formatted timestamp parses back to the date-time it came from |
| IsoTime.FormatParse | tests/test_trail.py:53 | every string that parses is exactly the formatting of its parse, so each date-time has one timestamp string |
| IsoTime.FormatExample | tests/test_trail.py:41-53 | 2015-05-04 21:10:42 formats as `2015-05-04T21:10:42` |
| Trail.GetId | tests/test_trail.py:15-17 | `get_id()` returns the id currently stored in the context; the ensures of `SetTrail` and `SetTrailDefault` state it through `GetId`, so they read back what was stored |
| Trail.SetTrail | tests/test_trail.py:19-24 | `set_trail(id_, live)` stores that id (a generated one when the id is falsy) and that live flag, and keeps the bound queue |
| Trail.SetTrailDefault | tests/test_trail.py:26-32 | `set_trail()` stores the id `generate_id` returns and a falsy live flag |
| Trail.SetQueue | tests/test_trail.py:34-38 | `set_queue(q)` binds `q` as the sink and leaves id and live flag alone |
| Trail.Trace | tests/test_trail.py:40-65 | `trace` is a no-op (`Skipped`) if and only if tracing is disabled; a record is sent if and only if tracing is enabled, a queue is bound and its `put` returns; then exactly one well-formed record goes to that queue with routing key `trace` on exchange `trail`, carrying the event type, the fields as `data`, the process name and a `time` that parses back to the current time; a missing queue or a raising `put` is a failure that `trace` passes on |
| Trail.TraceExample | tests/test_trail.py:40-58 | the trail test's trace publishes exactly `{'time': '2015-05-04T21:10:42', 'type': type_, 'process': 'process_name', 'data': {'event': 'data'}}` with routing key `trace` on exchange `trail` |
| Trail.TraceException | tests/test_trail.py:67-78 | `trace_exception(exc)` makes one trace request of type `exception` with exactly the fields `exc = str(exc)` and `stack`; it returns normally whatever the inner trace does, and a record is delivered exactly when that trace publishes one |
| Worker.SendToGarbage | tests/test_worker.py:26-30 | exactly one put, of `{'garbage_reason': str(error)}` to `<queue_name>_garbage` on exchange `''`, and exactly one ack, of the original message's token, coming last (both a modelling choice, see "## Left out"); no sleep |
| Worker.GetTask | tests/test_worker.py:52-60 | `get_task(message)` returns what `task_class(message)` returns, raised error included, and does not stop the worker; `DefaultGetTaskAttempt` states what that means for an attempt |
| Worker.DefaultGetTaskAttempt | tests/test_worker.py:52-60 | with the default `get_task`, an attempt is garbage if and only if `validate_message` or `task_class` raises, and it carries the `task_class` error once validation passed; when both return, the attempt crashes if and only if the built task raises; `stopped` is set exactly when `validate_message` set it |
| Worker.ProtectedRun | tests/test_worker.py:62-90 | an attempt is garbage if and only if the message was fetched and `validate_message` or `get_task` raised; the garbage call carries the fetched message, its ack token and the first error raised, and its log is that of `send_message_to_garbage`; an attempt is a crash if and only if the fetch or the task raised, the crash carries that exception, and then the queue is untouched; the message is acked exactly once unless the attempt crashed; `stopped` is set exactly when a hook that ran set it |
| Worker.ValidateFailureIsGarbage | tests/test_worker.py:62-75 | when `validate_message` raises, the attempt makes one garbage call with the fetched message, its ack token and that error, and sets `stopped` exactly when the hook did |
| Worker.GetTaskFailureIsGarbage | tests/test_worker.py:77-90 | when `get_task` raises after validation passed, the attempt makes one garbage call with the fetched message, its ack token and that error, and sets `stopped` exactly when either hook did |
| Worker.TaskFailureIsCrash | tests/test_worker.py:38-48 | an attempt that raises is a crash for the run loop (the test's `protected_run` raises); in the model a raising task is such an attempt, with that error, and it neither publishes nor acknowledges anything |
| Worker.RunLogSleeps | tests/test_worker.py:47-50 | in a run, the k-th sleep is the schedule's delay for crash number k, with one sleep per crash |
| Worker.RunLogSleepsIncrease | tests/test_worker.py:47-50 | under a strictly increasing schedule, every recorded sleep is longer than every earlier one |
| Worker.Run | tests/test_worker.py:32-50 | the loop ends with the first attempt that sets `stopped`, or when the attempts run out; its log is the reference run log of the attempts made; there is one sleep per crash, and the sleeps strictly increase |
| Worker.BadMessageAttempt | tests/test_worker.py:13-22 | in the bad-message test, an attempt on `({}, 1)` routes the message to garbage with reason `bad bad bad` and sets `stopped` |
| Worker.BadMessageGarbage | tests/test_worker.py:26-30 | that garbage routing publishes exactly `{'garbage_reason': 'bad bad bad'}` to `myqueue_garbage` on exchange `''` and acks token 1 |
| Worker.BadMessageRun | tests/test_worker.py:10-30 | the bad-message run stops after one attempt, with exactly that one put, one ack of token 1 and no sleep |
| Worker.TwoCrashRun | tests/test_worker.py:32-50 | when two attempts crash and the second sets `stopped`, the run records two sleeps and the first is shorter than the second |

## Left out

- The queue transport is left out: connection, blocking `get` with timeout, building the queue from a configuration object. The log records the `put` and `ack` calls; how an attempt's fetch ended is an input.
- `threading.local` is replaced by a map from context to record (`Tracing.Store`) and, for the trail, by one record for the calling context. Threads are not modelled.
- `uuid.uuid4` is left out: the id it would yield is an input of type `Uuid`, any non-empty string. Global uniqueness cannot be stated, let alone proved.
- `datetime.now`, `hived.process.get_name` and `TRACING_DISABLED` are inputs (`Trail.Environment`). Whether the bound queue's `put` raises is an input too.
- `time.sleep` is a `Slept` event. The backoff schedule is a parameter, required only to increase strictly between consecutive crashes. No base, cap or reset rule is modelled, because the tests evidence none. The crash counter runs for the whole `run` call.
- Worker.Run: the source loop can run forever. The model runs over a finite sequence of attempt results and returns with `stopped` false when they run out. Behaviour past that point is not modelled.
- Worker.BadMessageRun: the attempt it replays is the one `BadMessageAttempt` proves `protected_run` returns. The method does not call `ProtectedRun` itself.
- Stack capture (`sys.exc_info`, `iter_traceback_frames`, `get_stack_info`) is an opaque value passed to `TraceException`.
- Task execution is an opaque call that returns or raises.
- Worker.ProtectedRun: acking the message after its task ran (the `Ok` case) is a modelling assumption. No test runs a task to completion.
- Worker.TaskFailureIsCrash: a raising task counting as a crash, with the message left unacknowledged, is a modelling assumption. The tests only show that an attempt that raises is a crash (`tests/test_worker.py:38-44`); no test runs a task.
- Worker.SendToGarbage: three parts of the garbage routing are modelling choices. The published body holds only `garbage_reason`, and none of the message's own fields. The ack names the fetched message's token. The put comes before the ack. The only test that routes a message uses the empty body `{}` (`tests/test_worker.py:22`), checks only that `ack` was called (`tests/test_worker.py:30`), and does not order the two calls.
- Worker.ProtectedRun: no `set_trail` call is modelled inside an attempt, because no test asserts one.
- Worker.Run: crashes are not traced, because no test asserts a trace from the run loop.
- Mock-specific assertions such as call counts on the mock itself are left out. Each call is a value (`GarbageCall`, `Request`) or an entry in the log.
- Trail.Trace: publishing with no queue bound is a `NoQueueBound` failure. This is inferred from the attribute lookup the source must do; the tests never trace without a queue.
- Trail.SetTrail replaces any falsy id, like `set_id`. The tests only check the call with no id.
- Ids are strings. The tests also store the integer 42, which behaves the same for these operations. The live flag is a boolean where the test passes a mock.
- Trail.Trace: the record has only `time`, `type`, `process` and `data`, as `tests/test_trail.py:52-58` asserts. That the trail id and the live flag do not gate publication is an assumption: the enabled test sets both to truthy values (`tests/test_trail.py:46-47`), so a gate on either would pass it too.
- Trail.Trace: the default event type is not modelled. `tests/test_trail.py:64` calls `trace()` with no arguments, so `type_` has a default, but its value is not shown; every `Request` carries an explicit kind.
