/** The record the dispatcher keeps in its crash-dump history (LogEntry.cs). */
module Entries {
  import opened Platform
  import opened Levels

  /**
    A value record: copying it copies every field, so the copy stored in the
    history is independent of the caller's. `entry` and `exception` may be null.
  */
  datatype LogEntry = LogEntry(entry: Option<string>, time: Instant, level: LogLevel, exception: Option<Exception>)

  /** The constructor: it stores its four arguments as given and validates none of them; `exception` defaults to null. */
  function NewEntry(entry: Option<string>, time: Instant, level: LogLevel, exception: Option<Exception> := None): (e: LogEntry)
    ensures e.entry == entry && e.time == time && e.level == level && e.exception == exception
  {
    LogEntry(entry, time, level, exception)
  }

  /** Omitting the exception argument leaves the field null. */
  lemma ExceptionDefaultsToNull(entry: Option<string>, time: Instant, level: LogLevel)
    ensures NewEntry(entry, time, level).exception.None?
    ensures NewEntry(entry, time, level) == NewEntry(entry, time, level, None)
  {
  }
}
