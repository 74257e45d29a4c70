/** The audit trail of the supervisor (class EventLogger).
    The log file is opened in append mode once, when the logger is built; if that fails, every
    later event is silently dropped. Each written line is "[<local time>] <event>"; the model keeps
    the event part of each line, in arrival order, and leaves the wall-clock timestamp out. */
module EventLog {

  /** What a run of logEvent calls with these events adds to the log. */
  function Appended(isOpen: bool, events: seq<string>): (written: seq<string>)
  {
    if isOpen then events else []
  }

  /** Logging two runs of events one after the other is logging their concatenation. */
  lemma AppendedTwice(entries: seq<string>, isOpen: bool, first: seq<string>, second: seq<string>)
    ensures entries + Appended(isOpen, first) + Appended(isOpen, second) == entries + Appended(isOpen, first + second)
  {
  }

  class EventLogger {
    /** Whether opening the log file for appending succeeded; never changes afterwards. */
    const isOpen: bool
    /** The events written to the log file by this logger, oldest first. */
    var entries: seq<string>

    /** `openSucceeded` is the outcome of opening the log file, which the file system decides. */
    constructor (openSucceeded: bool)
      ensures isOpen == openSucceeded
      ensures entries == []
    {
      isOpen := openSucceeded;
      entries := [];
    }

    /** Appends exactly one entry holding the event unchanged when the log is open, and nothing otherwise. */
    method LogEvent(event: string)
      modifies this
      ensures isOpen ==> entries == old(entries) + [event]
      ensures !isOpen ==> entries == old(entries)
    {
      if isOpen {
        entries := entries + [event];
      }
    }
  }
}
