/** What one call of `Task.run` does, as pure functions: the options it resolves, the
    sequence of `makeComplete` calls that p-retry makes under the p-timeout deadline,
    and the log events it writes. `Tasks.Task.Run` is proved against these. */
module RunSpec {
  import opened Wrappers
  import opened Logging

  /** The outcome of one `makeComplete` call, and of a whole run. */
  datatype Outcome = Ok | Err(error: Error)

  /** The `timeout` option: a number of milliseconds, or `Number.POSITIVE_INFINITY`. */
  datatype Timeout = Milliseconds(ms: nat) | Infinity

  /** The optional argument `{ retries?, timeout? }` of `run`. */
  datatype RunOptions = RunOptions(retries: Option<nat>, timeout: Option<Timeout>)

  /** The options after their defaults are filled in. */
  datatype Settings = Settings(retries: nat, timeout: Timeout)

  /** How a run ended: how many times `makeComplete` was called before the outcome
      was settled, and the outcome. */
  datatype RunTrace = RunTrace(calls: nat, outcome: Outcome)

  /** `config?.retries ?? 0` and `config?.timeout ?? Number.POSITIVE_INFINITY`. */
  function Resolve(options: Option<RunOptions>): (s: Settings)
    ensures options.None? ==> s == Settings(0, Infinity)
    ensures options.Some? && options.value.retries.None? ==> s.retries == 0
    ensures options.Some? && options.value.timeout.None? ==> s.timeout == Infinity
    ensures options.Some? && options.value.retries.Some? ==> s.retries == options.value.retries.value
    ensures options.Some? && options.value.timeout.Some? ==> s.timeout == options.value.timeout.value
  {
    match options
    case None => Settings(0, Infinity)
    case Some(o) =>
      Settings(
        match o.retries case Some(r) => r case None => 0,
        match o.timeout case Some(t) => t case None => Infinity)
  }

  function Digit(d: nat): char
    requires d < 10
  {
    "0123456789"[d]
  }

  /** The decimal numeral of `n`, as a template literal prints an integer. */
  function DecimalString(n: nat): string
    decreases n
  {
    if n < 10 then [Digit(n)] else DecimalString(n / 10) + [Digit(n % 10)]
  }

  /** The error p-timeout rejects with once the deadline has passed. */
  function TimeoutError(ms: nat): Error
  {
    Error("TimeoutError", "Promise timed out after " + DecimalString(ms) + " milliseconds")
  }

  /** The deadline is enforced only for a finite timeout (p-timeout hands an infinite
      one straight through); `watchdog == Some(k)` says the deadline passes while the
      call numbered `k` (counting from 0) is pending or while p-retry waits after it. */
  predicate Fires(timeout: Timeout, watchdog: Option<nat>, k: nat)
  {
    timeout.Milliseconds? && watchdog == Some(k)
  }

  /** `pTimeout(pRetry(makeComplete, { retries }), { milliseconds: timeout })` from the
      call numbered `k` on, where `makeComplete(j)` is the outcome of call `j`. */
  function Attempt(makeComplete: nat -> Outcome, settings: Settings, watchdog: Option<nat>, k: nat): RunTrace
    requires k <= settings.retries
    decreases settings.retries - k
  {
    if Fires(settings.timeout, watchdog, k) then
      RunTrace(k + 1, Err(TimeoutError(settings.timeout.ms)))
    else
      match makeComplete(k)
      case Ok => RunTrace(k + 1, Ok)
      case Err(e) =>
        if k == settings.retries then RunTrace(k + 1, Err(e))
        else Attempt(makeComplete, settings, watchdog, k + 1)
  }

  /** The whole retry and timeout step of `run`. */
  function Pipeline(makeComplete: nat -> Outcome, settings: Settings, watchdog: Option<nat>): RunTrace
  {
    Attempt(makeComplete, settings, watchdog, 0)
  }

  function StartedMessage(taskType: string, name: string): string
  {
    "Started " + taskType + ": " + name
  }

  /** The success message, spelled as the code spells it. */
  function FinishedMessage(taskType: string, name: string): string
  {
    "Finised " + taskType + ": " + name
  }

  function ErroredMessage(taskType: string, name: string): string
  {
    "Errored " + taskType + ": " + name
  }

  /** The events one run writes to the task's logger, given its outcome. */
  function RunLog(taskType: string, name: string, outcome: Outcome): seq<LogEvent>
  {
    [LogEvent(Info, StartedMessage(taskType, name), None)] +
    match outcome
    case Ok => [LogEvent(Info, FinishedMessage(taskType, name), None)]
    case Err(e) => [LogEvent(ErrorLevel, ErroredMessage(taskType, name), Some(e))]
  }

  /** The whole behaviour of the retry step from call `k` on: between `k + 1` and
      `retries + 1` calls; every call before the last failed and the deadline did not
      pass during it; the last call settles the run: with the timeout error if the
      deadline passed during it, otherwise with that call's own outcome, and a failed
      last call means the budget is used up. */
  lemma {:induction false} AttemptTrace(makeComplete: nat -> Outcome, settings: Settings, watchdog: Option<nat>, k: nat)
    requires k <= settings.retries
    ensures var t := Attempt(makeComplete, settings, watchdog, k);
      && k + 1 <= t.calls <= settings.retries + 1
      && (forall j :: k <= j < t.calls - 1 ==>
            makeComplete(j).Err? && !Fires(settings.timeout, watchdog, j))
      && (Fires(settings.timeout, watchdog, t.calls - 1) ==>
            t.outcome == Err(TimeoutError(settings.timeout.ms)))
      && (!Fires(settings.timeout, watchdog, t.calls - 1) ==>
            t.outcome == makeComplete(t.calls - 1) &&
            (t.outcome.Err? ==> t.calls == settings.retries + 1))
    decreases settings.retries - k
  {
    if !Fires(settings.timeout, watchdog, k) && makeComplete(k).Err? && k < settings.retries {
      AttemptTrace(makeComplete, settings, watchdog, k + 1);
    }
  }

  /** At most `retries + 1` calls, and at least one. */
  lemma CallsBounded(makeComplete: nat -> Outcome, settings: Settings, watchdog: Option<nat>)
    ensures 1 <= Pipeline(makeComplete, settings, watchdog).calls <= settings.retries + 1
  {
    AttemptTrace(makeComplete, settings, watchdog, 0);
  }

  /** A successful run stopped at the first successful call: the last call succeeded
      and every earlier one failed. */
  lemma StopsAtFirstSuccess(makeComplete: nat -> Outcome, settings: Settings, watchdog: Option<nat>)
    ensures var t := Pipeline(makeComplete, settings, watchdog);
      t.calls >= 1 && (t.outcome.Ok? ==>
        makeComplete(t.calls - 1).Ok? && forall j :: 0 <= j < t.calls - 1 ==> makeComplete(j).Err?)
  {
    AttemptTrace(makeComplete, settings, watchdog, 0);
  }

  /** If call `n` is the first to succeed, it lies within the budget and the deadline
      does not pass before it settles, the run succeeds after exactly `n + 1` calls. */
  lemma SucceedsAtFirstSuccess(makeComplete: nat -> Outcome, settings: Settings, watchdog: Option<nat>, n: nat)
    requires n <= settings.retries
    requires makeComplete(n).Ok? && forall j :: 0 <= j < n ==> makeComplete(j).Err?
    requires forall j :: 0 <= j <= n ==> !Fires(settings.timeout, watchdog, j)
    ensures Pipeline(makeComplete, settings, watchdog) == RunTrace(n + 1, Ok)
  {
    var t := Pipeline(makeComplete, settings, watchdog);
    AttemptTrace(makeComplete, settings, watchdog, 0);
    // call n succeeded, so it is not among the failed calls before the last
    assert makeComplete(n).Ok?;
  }

  /** When every call within the budget fails and the deadline does not pass, `run`
      makes `retries + 1` calls and fails with the last call's error, unchanged. */
  lemma ExhaustedPassesErrorThrough(makeComplete: nat -> Outcome, settings: Settings, watchdog: Option<nat>)
    requires forall j :: 0 <= j <= settings.retries ==> makeComplete(j).Err?
    requires forall j :: 0 <= j <= settings.retries ==> !Fires(settings.timeout, watchdog, j)
    ensures Pipeline(makeComplete, settings, watchdog) ==
      RunTrace(settings.retries + 1, makeComplete(settings.retries))
  {
    AttemptTrace(makeComplete, settings, watchdog, 0);
  }

  /** A deadline that passes during call `k` ends the run with the timeout error,
      whatever budget is left: no further call is made. */
  lemma TimeoutIsNotRetried(makeComplete: nat -> Outcome, retries: nat, ms: nat, k: nat)
    requires k <= retries
    requires forall j :: 0 <= j < k ==> makeComplete(j).Err?
    ensures Pipeline(makeComplete, Settings(retries, Milliseconds(ms)), Some(k)) ==
      RunTrace(k + 1, Err(TimeoutError(ms)))
  {
    var s := Settings(retries, Milliseconds(ms));
    var t := Pipeline(makeComplete, s, Some(k));
    AttemptTrace(makeComplete, s, Some(k), 0);
    assert Fires(s.timeout, Some(k), k);
  }

  /** With no timeout the deadline never matters. */
  lemma {:induction false} InfinityNeverTimesOut(makeComplete: nat -> Outcome, retries: nat, watchdog: Option<nat>, k: nat)
    requires k <= retries
    ensures Attempt(makeComplete, Settings(retries, Infinity), watchdog, k) ==
      Attempt(makeComplete, Settings(retries, Infinity), None, k)
    decreases retries - k
  {
    if makeComplete(k).Err? && k < retries {
      InfinityNeverTimesOut(makeComplete, retries, watchdog, k + 1);
    }
  }

  /** `makeComplete` that fails with `e` on its first `n` calls and then succeeds. */
  function FailThenSucceed(e: Error, n: nat): nat -> Outcome
  {
    j => if j < n then Err(e) else Ok
  }

  /** With `retries >= n` such a task succeeds after exactly `n + 1` calls; with fewer
      retries it fails with `e` after `retries + 1` calls. */
  lemma RetryBudget(e: Error, n: nat, settings: Settings, watchdog: Option<nat>)
    requires forall j :: 0 <= j <= settings.retries ==> !Fires(settings.timeout, watchdog, j)
    ensures n <= settings.retries ==>
      Pipeline(FailThenSucceed(e, n), settings, watchdog) == RunTrace(n + 1, Ok)
    ensures n > settings.retries ==>
      Pipeline(FailThenSucceed(e, n), settings, watchdog) == RunTrace(settings.retries + 1, Err(e))
  {
    var f := FailThenSucceed(e, n);
    if n <= settings.retries {
      SucceedsAtFirstSuccess(f, settings, watchdog, n);
    } else {
      ExhaustedPassesErrorThrough(f, settings, watchdog);
    }
  }

  /** One failure then a success, with `retries: 1`: two calls and success. */
  lemma FailOnceRetryOnce(e: Error)
    ensures Pipeline(FailThenSucceed(e, 1), Resolve(Some(RunOptions(Some(1), None))), None) == RunTrace(2, Ok)
  {
    RetryBudget(e, 1, Settings(1, Infinity), None);
  }

  /** A single attempt with no timeout, the `run` of the oldest copy, is the
      retry step with `retries = 0`: one call whose outcome is the run's. */
  lemma SingleAttempt(outcome: Outcome, watchdog: Option<nat>)
    ensures Pipeline(_ => outcome, Resolve(None), watchdog) == RunTrace(1, outcome)
  {
  }

  /** A run logs exactly two events: first the info event `Started <type>: <name>`,
      then either the info event `Finised <type>: <name>` (success, and no error event)
      or the error event `Errored <type>: <name>` carrying the run's error (failure,
      and no finish event). */
  lemma RunLogShape(taskType: string, name: string, outcome: Outcome)
    ensures var log := RunLog(taskType, name, outcome);
      && |log| == 2
      && log[0] == LogEvent(Info, StartedMessage(taskType, name), None)
      && (outcome.Ok? <==> log[1].level == Info)
      && (outcome.Ok? ==>
            && log[1].message == FinishedMessage(taskType, name)
            && forall i :: 0 <= i < |log| ==> log[i].level != ErrorLevel)
      && (outcome.Err? ==>
            && log[1] == LogEvent(ErrorLevel, ErroredMessage(taskType, name), Some(outcome.error))
            && forall i :: 0 <= i < |log| ==> log[i].message != FinishedMessage(taskType, name))
  {
    var log := RunLog(taskType, name, outcome);
    assert StartedMessage(taskType, name)[0] == 'S';
    assert FinishedMessage(taskType, name)[0] == 'F';
    assert ErroredMessage(taskType, name)[0] == 'E';
  }

  /** The task's type and name appear verbatim in each message. */
  lemma MessagesCarryTypeAndName(taskType: string, name: string)
    ensures var m := StartedMessage(taskType, name);
      m[8..8 + |taskType|] == taskType && m[8 + |taskType|..8 + |taskType| + 2] == ": " && m[|m| - |name|..] == name
    ensures var m := FinishedMessage(taskType, name);
      m[8..8 + |taskType|] == taskType && m[8 + |taskType|..8 + |taskType| + 2] == ": " && m[|m| - |name|..] == name
    ensures var m := ErroredMessage(taskType, name);
      m[8..8 + |taskType|] == taskType && m[8 + |taskType|..8 + |taskType| + 2] == ": " && m[|m| - |name|..] == name
  {
  }
}
