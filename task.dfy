/** The `Task` base class: a named unit of work with a configuration object that only
    `updateConfig` changes, a logger created on first use and cached, and `run`, which
    logs around the abstract `makeComplete`. The subclass's `makeComplete` is an oracle:
    `makeComplete(k)` is the outcome of its call numbered `k`. */
module Tasks {
  import opened Wrappers
  import opened TaskConfig
  import opened Logging
  import opened RunSpec

  /** The retry and timeout step of `run`: calls `makeComplete` until one call succeeds,
      the `retries` budget is used up or the deadline passes, and reports how many calls
      were made and how the step ended. */
  method RetryWithTimeout(makeComplete: nat -> Outcome, settings: Settings, watchdog: Option<nat>)
    returns (outcome: Outcome, calls: nat)
    ensures RunTrace(calls, outcome) == Pipeline(makeComplete, settings, watchdog)
    ensures 1 <= calls <= settings.retries + 1
  {
    calls := 0;
    outcome := Ok;
    var settled := false;
    while !settled
      invariant calls <= settings.retries + 1
      invariant !settled ==> calls <= settings.retries
      invariant !settled ==>
        Attempt(makeComplete, settings, watchdog, calls) == Pipeline(makeComplete, settings, watchdog)
      invariant settled ==> 1 <= calls && RunTrace(calls, outcome) == Pipeline(makeComplete, settings, watchdog)
      decreases settings.retries + 1 - calls
    {
      if Fires(settings.timeout, watchdog, calls) {
        outcome := Err(TimeoutError(settings.timeout.ms));
        settled := true;
      } else {
        var attempt := makeComplete(calls);
        if attempt.Ok? || calls == settings.retries {
          outcome := attempt;
          settled := true;
        }
      }
      calls := calls + 1;
    }
  }

  class Task {
    /** The task's name, which subclasses define. */
    const name: string
    /** The `type` shown in log messages: `"task"` unless a subclass says otherwise. */
    const taskType: string
    /** The private configuration field; reading it is the `config` getter. */
    var config: Config
    /** The private logger cache. */
    var logger: Option<Logger>
    /** How many times `createLogger` has been called on this task. */
    ghost var loggersCreated: nat

    ghost function LoggerFootprint(): set<object>
      reads this
    {
      if logger.Some? then {logger.value} else {}
    }

    /** The events logged so far through the cached logger. */
    ghost function LoggedEvents(): seq<LogEvent>
      reads this, LoggerFootprint()
    {
      if logger.Some? then logger.value.events else []
    }

    /** A task whose subclass keeps the default `type`. */
    constructor (name: string)
      ensures this.name == name && taskType == "task"
      ensures config == EmptyConfig && logger == None && loggersCreated == 0
    {
      this.name := name;
      taskType := "task";
      config := EmptyConfig;
      logger := None;
      loggersCreated := 0;
    }

    /** A task whose subclass sets `type` itself (`"task"` or `"flow"` in the oldest copy). */
    constructor WithType(name: string, taskType: string)
      ensures this.name == name && this.taskType == taskType
      ensures config == EmptyConfig && logger == None && loggersCreated == 0
    {
      this.name := name;
      this.taskType := taskType;
      config := EmptyConfig;
      logger := None;
      loggersCreated := 0;
    }

    /** `createLogger()`: builds a new logger and touches nothing else. */
    method CreateLogger() returns (l: Logger)
      modifies this`loggersCreated
      ensures fresh(l) && l.events == []
      ensures loggersCreated == old(loggersCreated) + 1
    {
      l := new Logger();
      loggersCreated := loggersCreated + 1;
    }

    /** The `logger` getter: `this.#logger = this.#logger || this.createLogger()`. */
    method GetLogger() returns (l: Logger)
      modifies this`logger, this`loggersCreated
      ensures logger == Some(l)
      ensures old(logger).Some? ==> l == old(logger).value && loggersCreated == old(loggersCreated)
      ensures old(logger).None? ==> fresh(l) && l.events == [] && loggersCreated == old(loggersCreated) + 1
    {
      if logger.None? {
        var created := CreateLogger();
        logger := Some(created);
      }
      l := logger.value;
    }

    /** Two reads of `logger` give the same instance, and `createLogger` runs at most
        once, only if nothing was cached. */
    method ReadLoggerTwice() returns (first: Logger, second: Logger)
      modifies this`logger, this`loggersCreated
      ensures first == second && logger == Some(first)
      ensures loggersCreated == old(loggersCreated) + (if old(logger).None? then 1 else 0)
    {
      first := GetLogger();
      second := GetLogger();
    }

    /** `updateConfig(update)`: `this.#config = { ...this.#config, ...update }`. */
    method UpdateConfig(update: Config)
      modifies this`config
      ensures config == Merge(old(config), update)
    {
      config := Merge(config, update);
    }

    /** `run(options)` with retries and a timeout: logs the start, runs the retry step,
        then logs the finish, or logs the error and fails with it. */
    method Run(options: Option<RunOptions>, makeComplete: nat -> Outcome, watchdog: Option<nat>)
      returns (outcome: Outcome, calls: nat)
      modifies this`logger, this`loggersCreated, LoggerFootprint()
      ensures RunTrace(calls, outcome) == Pipeline(makeComplete, Resolve(options), watchdog)
      ensures logger.Some? && (old(logger).Some? ==> logger == old(logger))
      ensures old(logger).None? ==> fresh(logger.value)
      ensures loggersCreated == old(loggersCreated) + (if old(logger).None? then 1 else 0)
      ensures logger.value.events == old(LoggedEvents()) + RunLog(taskType, name, outcome)
      ensures config == old(config)
    {
      var settings := Resolve(options);
      var l := GetLogger();
      l.LogInfo(StartedMessage(taskType, name));
      outcome, calls := RetryWithTimeout(makeComplete, settings, watchdog);
      l := GetLogger();
      match outcome
      case Ok => l.LogInfo(FinishedMessage(taskType, name));
      case Err(e) => l.LogError(ErroredMessage(taskType, name), e);
    }

    /** `run()` of the oldest copy: a single call of `makeComplete`, no retry, no timeout. */
    method RunOnce(makeComplete: Outcome) returns (outcome: Outcome)
      modifies this`logger, this`loggersCreated, LoggerFootprint()
      ensures RunTrace(1, outcome) == Pipeline(_ => makeComplete, Resolve(None), None)
      ensures logger.Some? && (old(logger).Some? ==> logger == old(logger))
      ensures old(logger).None? ==> fresh(logger.value)
      ensures loggersCreated == old(loggersCreated) + (if old(logger).None? then 1 else 0)
      ensures logger.value.events == old(LoggedEvents()) + RunLog(taskType, name, outcome)
      ensures config == old(config)
    {
      var l := GetLogger();
      l.LogInfo(StartedMessage(taskType, name));
      outcome := makeComplete;
      l := GetLogger();
      match outcome
      case Ok => l.LogInfo(FinishedMessage(taskType, name));
      case Err(e) => l.LogError(ErroredMessage(taskType, name), e);
    }
  }

  /** A new task with the default type has type `"task"` and an empty configuration;
      one update then gives exactly that update. */
  method NewTaskThenUpdate(name: string, update: Config) returns (t: Task)
    ensures t.name == name && t.taskType == "task"
    ensures t.config == update
  {
    t := new Task(name);
    MergeIdentity(update);
    t.UpdateConfig(update);
  }
}
