/** The logging capability a task writes to. Only the calls a task makes are modelled:
    each call appends one event to the logger's record of what it was asked to log. */
module Logging {
  import opened Wrappers

  /** A thrown JavaScript error: its class name and its message. */
  datatype Error = Error(name: string, message: string)

  datatype Level = Trace | Debug | Info | Warn | ErrorLevel

  /** One logger call: the level, the message and the optional structured data,
      which for `run` is `{ error }`. */
  datatype LogEvent = LogEvent(level: Level, message: string, error: Option<Error>)

  /** A logger instance. Its identity is the object reference; `events` records,
      in order, every call made on it. */
  class Logger {
    ghost var events: seq<LogEvent>

    constructor ()
      ensures events == []
    {
      events := [];
    }

    /** `logger.info(message)` */
    method LogInfo(message: string)
      modifies this
      ensures events == old(events) + [LogEvent(Info, message, None)]
    {
      events := events + [LogEvent(Info, message, None)];
    }

    /** `logger.error(message, { error })` */
    method LogError(message: string, error: Error)
      modifies this
      ensures events == old(events) + [LogEvent(ErrorLevel, message, Some(error))]
    {
      events := events + [LogEvent(ErrorLevel, message, Some(error))];
    }
  }
}
