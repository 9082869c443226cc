# uptask task core in Dafny

This project models the core of uptask, a small toolkit for running named tasks. It covers:

- the `Task` base class. A task has a name and a `type`. Its configuration object changes only through
  `updateConfig`, which does a shallow merge. Its logger is created on first use and then cached.
  `run` logs `Started <type>: <name>`, calls the abstract `makeComplete` under p-retry and p-timeout,
  then logs `Finised <type>: <name>` (the code's spelling). On failure it logs `Errored <type>: <name>`
  with `{ error }` and throws the error again.
- `createTasks`, which instantiates task classes and keys the instances by `name`.
- `findTask`, which returns the first task in registry order that satisfies a predicate.

The repository has three copies of `Task`. One parameterised class covers all three:

- `packages/core/models/task.ts` and `core/models/task.ts` share the same `run`, with retries and a
  timeout. This is `Tasks.Task.Run`.
- `core/task.ts` makes a single attempt. This is `Tasks.Task.RunOnce`, proved equal to the retry
  step with no retries and no timeout.

The two copies of `createTasks` are identical. The two copies of `findTask` differ only when nothing
matches: the newer one throws `Task not found` (`Registry.FindTask`), and the older one returns
`undefined` (`Registry.FindTaskOrUndefined`).

Modules:

- `Wrappers` (wrappers.dfy): `Option` and `Result`.
- `TaskConfig` (config.dfy): configuration values and the merge `{ ...base, ...update }`.
- `Logging` (logger.dfy): errors, log events, and a `Logger` class. The logger records each call made
  on it in a ghost event sequence.
- `RunSpec` (run_spec.dfy): pure definitions of what `run` does. `Resolve` fills in the option
  defaults. `Attempt`/`Pipeline` describe the p-retry calls under the p-timeout deadline. `RunLog`
  gives the log events. The module also holds the lemmas about these definitions.
- `Tasks` (task.dfy): the `Task` class, with its fields, the `logger` getter and `createLogger`,
  `updateConfig`, `run`, and the retry loop `RetryWithTimeout`.
- `Registry` (registry.dfy): a JavaScript object as a registry: its keys in insertion order plus a
  map. It also holds `Object.fromEntries`, the values in key order, and both `findTask` variants.
- `TaskRegistry` (create_tasks.dfy): `createTasks` over `Task` instances, and lookups in the registry
  it builds.

How the environment is represented:

- `makeComplete` is an oracle. `makeComplete(k)` is the outcome (`Ok` or `Err(e)`) of the call
  numbered `k`, counting from 0.
- The wall clock is an oracle too. `watchdog == Some(k)` means the p-timeout deadline passes while
  call `k` is pending or during p-retry's wait after it. The deadline counts only for a finite
  timeout, because p-timeout passes an infinite timeout straight through.
- Logging output is the ghost event sequence of each `Logger` object.
- A `findTask` predicate is a pure function of the task.

## Model

| member | source | states |
|---|---|---|
| TaskConfig.Merge | packages/core/models/task.ts:58-60 | the merged config has the keys of both; every key of the update takes the update's value; every other old key keeps its old value |
| TaskConfig.MergeSequential | packages/core/models/task.ts:58-60 | updating with A and then with B equals one update with B merged over A |
| TaskConfig.MergeIdentity | core/models/task.ts:9-25 | an empty update leaves the config as it was; updating the initial `{}` yields the update itself |
| TaskConfig.MergeIdempotent | core/task.ts:21-23 | applying the same update twice equals applying it once |
| TaskConfig.MergeOverride | packages/core/models/__spec__/task.ts:39-45 | a later value for a key replaces the earlier one, and the other keys are kept |
| Logging.Logger.LogInfo | packages/core/models/logger.ts:22 | an info call appends exactly one info event with that message and no data |
| Logging.Logger.LogError | packages/core/models/logger.ts:34 | an error call appends exactly one error event carrying the message and `{ error }` |
| RunSpec.Resolve | packages/core/models/task.ts:73-74 | omitted options (no argument, or a missing field) give `retries = 0` and `timeout = +Infinity`; given values are kept |
| RunSpec.AttemptTrace | packages/core/models/task.ts:78-80 | complete characterisation of the retry step: between 1 and retries+1 calls; every call before the last failed and the deadline did not pass during it; the last call settles the run with its own outcome, or with the timeout error if the deadline passed; a failed last call means the budget is used up |
| RunSpec.CallsBounded | core/models/task.ts:36-38 | `makeComplete` is called at least once and at most retries+1 times |
| RunSpec.StopsAtFirstSuccess | packages/core/models/task.ts:78 | on success the last call succeeded and every earlier call failed, so calls stop at the first success |
| RunSpec.SucceedsAtFirstSuccess | packages/core/models/__spec__/task.ts:77-86 | if call n is the first success, n is within the budget and the deadline does not pass, the run succeeds after exactly n+1 calls |
| RunSpec.ExhaustedPassesErrorThrough | packages/core/models/__spec__/task.ts:98-103 | if every call within the budget fails, the run makes retries+1 calls and fails with the last call's error unchanged |
| RunSpec.TimeoutIsNotRetried | packages/core/models/__spec__/task.ts:88-96 | a deadline that passes during call k ends the run with `Promise timed out after <ms> milliseconds` after k+1 calls, whatever budget is left |
| RunSpec.InfinityNeverTimesOut | core/models/task.ts:32-38 | with the default infinite timeout the clock has no effect on the run |
| RunSpec.RetryBudget | core/models/task.ts:31-38 | a task that fails n times and then succeeds: with retries >= n it succeeds after n+1 calls; with fewer retries it fails with its error after retries+1 calls |
| RunSpec.FailOnceRetryOnce | packages/core/models/task.ts:72-80 | one failure then a success with `retries: 1` gives exactly two calls and success |
| RunSpec.SingleAttempt | core/task.ts:28 | one call whose outcome is the run's outcome is exactly the retry step with retries 0 and no timeout |
| RunSpec.RunLogShape | packages/core/models/task.ts:76-85 | a run logs exactly two events. The first is the info event `Started <type>: <name>`. On success the second is the info event `Finised <type>: <name>` and no error event is logged. On failure the second is the error event `Errored <type>: <name>` carrying the error, and no finish event is logged |
| RunSpec.MessagesCarryTypeAndName | core/task.ts:26-31 | in each of the Started, Finised and Errored messages, the task's type appears verbatim after the 8-character prefix, followed by `": "`, and the message ends with the task's name verbatim |
| Tasks.RetryWithTimeout | packages/core/models/task.ts:78-80 | the retry loop's call count and outcome are those of `Pipeline`, with 1 to retries+1 calls |
| Tasks.Task.constructor | packages/core/models/task.ts:19-30 | a new task has type `"task"`, an empty config and no cached logger |
| Tasks.Task.WithType | core/task.ts:4-8 | a task whose subclass sets `type` starts with that type, an empty config and no cached logger |
| Tasks.Task.CreateLogger | packages/core/models/task.ts:43-45 | creates a new logger with nothing logged and counts the call |
| Tasks.Task.GetLogger | packages/core/models/task.ts:35-38 | returns the cached logger without calling `createLogger`; only when nothing is cached, it creates one new logger and caches it |
| Tasks.Task.ReadLoggerTwice | packages/core/models/__spec__/task.ts:47-55 | two reads return the same instance, and `createLogger` is called once for a task with nothing cached and never otherwise |
| Tasks.Task.UpdateConfig | core/models/task.ts:23-25 | the new config is the old config merged with the update |
| Tasks.Task.Run | packages/core/models/task.ts:72-86 | the call count and outcome are those of the retry step under the resolved options; the logger gains exactly `RunLog` of that outcome after what it held before; an existing logger is kept, and otherwise exactly one new logger is created (`createLogger` runs once, only when nothing was cached); the config does not change |
| Tasks.Task.RunOnce | core/task.ts:25-34 | the outcome is the single call's outcome, equal to the retry step with no retries; the logger gains exactly `RunLog` of it; an existing logger is kept, and otherwise exactly one new logger is created; the config does not change |
| Tasks.NewTaskThenUpdate | packages/core/models/__spec__/task.ts:33-45 | a new task has type `"task"`, and one update of its empty config yields exactly the update |
| Registry.Values | packages/core/actions/findTask.ts:26-27 | the list has one value per entry; every entry's value is in it, so `find` sees every task; the values come in key order |
| Registry.FromEntries | packages/core/actions/createTasks.ts:46 | `Object.fromEntries` yields a well-formed object: no repeated keys, and the keys listed are exactly those with a value |
| Registry.FromEntriesKeys | core/actions/createTasks.ts:10 | the keys are the names in input order, each at its first occurrence; a key is present exactly when some pair carries it |
| Registry.FromEntriesLastWins | packages/core/actions/createTasks.ts:46 | when names repeat, the last pair's value is stored under the name |
| Registry.FromEntriesOfDistinct | packages/core/actions/__spec__/createTasks.ts:82-90 | with distinct names the keys are exactly the names in input order, with one entry per pair |
| Registry.FromEntriesOfDistinctValues | core/actions/__spec__/createTasks.ts:18-24 | with distinct names each name stores its own pair's value, and the values come out in input order |
| Registry.FirstMatch | packages/core/actions/findTask.ts:26-28 | `find` returns the index of a value satisfying the predicate with none before it, and returns nothing exactly when no value satisfies it |
| Registry.FindTask | packages/core/actions/findTask.ts:22-35 | returns a task that satisfies the predicate and comes first in key order among those that do; fails with `Task not found` exactly when no task satisfies it |
| Registry.FindTaskOrUndefined | core/actions/findTask.ts:7-16 | returns `Some(t)`, with t the first match in key order, exactly when some task matches, and `undefined` otherwise; it never throws |
| Registry.FindTaskVariantsAgree | core/actions/findTask.ts:11-15 | the two copies find the same task whenever one matches |
| Registry.FindInEmpty | packages/core/actions/__spec__/findTask.ts:45-47 | an empty registry gives `Task not found` (newer copy) or `undefined` (older copy), whatever the predicate |
| TaskRegistry.InstantiateAll | packages/core/actions/createTasks.ts:45 | each class is instantiated exactly once, in input order, into new and pairwise distinct instances with empty configs |
| TaskRegistry.TaskMap | core/actions/createTasks.ts:9-10 | the registry built from the instances is well formed |
| TaskRegistry.CreateTasks | packages/core/actions/createTasks.ts:44-49 | the result is `Object.fromEntries` of the new, distinct instances keyed by name |
| TaskRegistry.TaskMapKeys | packages/core/actions/createTasks.ts:46 | the keys are the instances' names in input order, each at its first occurrence |
| TaskRegistry.TaskMapOfDistinct | packages/core/actions/__spec__/createTasks.ts:67-73 | with distinct names there is one entry per class; each name maps to its own instance; the values are the instances in input order |
| TaskRegistry.TaskMapEmpty | core/actions/__spec__/createTasks.ts:26-31 | no classes give an empty map |
| TaskRegistry.TaskMapLastWins | core/actions/createTasks.ts:9-10 | if two instances share a name, the later one is stored under it |
| TaskRegistry.FindUniqueMatch | core/actions/__spec__/findTask.ts:22-38 | a predicate that only one instance satisfies finds that very instance in both copies of `findTask` |
| TaskRegistry.FindByName | packages/core/actions/__spec__/findTask.ts:21-24 | a lookup by name in a registry with distinct names returns that very instance |
| TaskRegistry.UpdateOneOfMany | packages/core/actions/__spec__/createTasks.ts:92-106 | updating one created task's config leaves every other instance's config empty |

## Left out

- Wall-clock time is not modelled. Neither are p-retry's backoff delays (by default 1 s, doubling)
  or the Promise machinery. The deadline is an input (`watchdog`) that says during which call it
  passes.
- After a timeout, p-retry keeps calling `makeComplete` in the background, because p-timeout cancels
  nothing. The model counts only the calls made before `run` settles.
- RunSpec.Attempt: every failure is treated as an ordinary retryable `Error`. p-retry behaves
  differently in four ways that are not modelled:
  - it stops at once on an `AbortError`;
  - it stops at once, without retrying, on a `TypeError` that is not a network error, so a task
    failing with one makes one call, where `RunSpec.RetryBudget` predicts more;
  - it replaces a thrown non-`Error` value with a `TypeError`;
  - it adds `attemptNumber`/`retriesLeft` properties to the error it passes on.
- RunSpec.ExhaustedPassesErrorThrough: when the budget is used up, the run fails with the last
  call's error. This is the behaviour of p-retry 7. Releases before 7 reject instead with the error
  whose message occurred most often among the failed calls, a tie going to the later one. The
  failures A, A, B under `retries: 2` then give the second A, not B. The two agree when every
  failed call has the same message, as in the tests. The p-retry version in use is not part of this
  model.
- RunSpec.Attempt: `timeout: 0` is modelled as an ordinary deadline that the clock input may pass.
  p-timeout accepts only a positive `milliseconds` (fractions included) and rejects `0` with a
  `TypeError` before any deadline.
- `retries` and `timeout` are modelled as natural numbers. Negative, fractional and `NaN` retries
  are left out, and so are negative and `NaN` timeouts (p-timeout rejects those with a `TypeError`)
  and fractional timeouts.
- In JavaScript, keys that look like array indices (such as `"0"` or `"17"`) are listed first, in
  numeric order, whatever the insertion order. The registry models insertion order only, as if no
  task name were an array index.
- A `findTask` predicate that reads a task's mutable state (its config) is modelled as a pure
  function of the task.
- A `makeComplete` that changes the task's config during `run` is left out. Here `makeComplete` is
  an oracle, so `run` leaves the config unchanged.
- The default `createLogger` is built from `console`, whose output is I/O. It is modelled as a new
  `Logger` object.
- Tasks.Task.CreateLogger: the two older copies declare `createLogger` abstract and promise nothing
  about it. The model has it always return a new logger with nothing logged, as the newer copy's
  default and every test subclass do.
- TaskRegistry.CreateTasks: a task constructor that throws makes `createTasks` throw. The model's
  constructors cannot fail, so this path is not represented.
- `trace`, `debug`, `warn` and `child` on the logger are not modelled, because `run` never calls
  them.
- `Tasks.Task.constructor`: a subclass can still override the `type = "task"` field initializer.
  `Tasks.Task.WithType` covers such subclasses, and core/task.ts's `"task" | "flow"`. The restriction
  of core/task.ts's type to those two strings is a TypeScript type annotation and is not checked.
- Not modelled at all:
  - `batchFunctions`, a thin wrapper over p-all whose point is the concurrency bound inside that
    library;
  - the CLI dispatchers, which parse arguments and JSON and do console and process I/O;
  - the cron scheduler, which registers callbacks with an external library;
  - `printTasks`, which only writes to the console;
  - the logger type files, the re-export modules and the test fixtures.
