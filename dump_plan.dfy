/**
  The per-level rules both file sinks apply when they render a crash dump
  (the `switch (entry.Level)` in TextLogger.LogCrashDump and
  HtmlLogger.LogCrashDump): which lines an entry produces, in which order.
*/
module DumpPlan {
  import opened Platform
  import opened Levels
  import opened Entries

  /** One line of a crash dump: an entry's message or its exception, under the entry's level. */
  datatype DumpItem = MessageItem(level: LogLevel, text: string) | ExceptionItem(level: LogLevel, ex: Exception)

  /**
    Debug and Info: the message (a null one renders empty). Warning and Error:
    the message unless it is null or empty, then the exception unless it is
    null. Silent: nothing.
  */
  function Plan(e: LogEntry): seq<DumpItem>
  {
    match e.level
    case Debug => [MessageItem(Debug, TextOf(e.entry))]
    case Info => [MessageItem(Info, TextOf(e.entry))]
    case Warning | Error =>
      (if IsNullOrEmpty(e.entry) then [] else [MessageItem(e.level, e.entry.value)])
      + (if e.exception.Some? then [ExceptionItem(e.level, e.exception.value)] else [])
    case Silent => []
  }

  /** What each level contributes, stated per level. */
  lemma PlanByLevel(e: LogEntry)
    ensures forall i :: 0 <= i < |Plan(e)| ==> Plan(e)[i].level == e.level
    ensures e.level == Silent ==> Plan(e) == []
    ensures e.level == Debug || e.level == Info ==> Plan(e) == [MessageItem(e.level, TextOf(e.entry))]
    ensures e.level == Warning || e.level == Error ==>
      |Plan(e)| == (if IsNullOrEmpty(e.entry) then 0 else 1) + (if e.exception.Some? then 1 else 0)
      && (!IsNullOrEmpty(e.entry) ==> Plan(e)[0] == MessageItem(e.level, e.entry.value))
      && (e.exception.Some? ==> Plan(e)[|Plan(e)| - 1] == ExceptionItem(e.level, e.exception.value))
  {
  }

  /** The lines of a whole dump: every entry's lines, entry after entry. */
  function PlanAll(entries: seq<LogEntry>): seq<DumpItem>
  {
    ConcatMap(entries, Plan)
  }

  /** The dump of a concatenation is the concatenation of the dumps: entry order is kept. */
  lemma PlanAllAppend(a: seq<LogEntry>, b: seq<LogEntry>)
    ensures PlanAll(a + b) == PlanAll(a) + PlanAll(b)
  {
    ConcatMapAppend(a, b, Plan);
  }

  /** No dump line is ever tagged Silent, and each carries the level of an entry of the dump. */
  lemma {:induction false} PlanAllLevels(entries: seq<LogEntry>)
    ensures forall i :: 0 <= i < |PlanAll(entries)| ==>
      PlanAll(entries)[i].level != Silent && exists e :: e in entries && e.level == PlanAll(entries)[i].level
  {
    if entries != [] {
      var init := entries[..|entries| - 1];
      var last := entries[|entries| - 1];
      PlanAllLevels(init);
      PlanByLevel(last);
      forall i | 0 <= i < |PlanAll(entries)|
        ensures PlanAll(entries)[i].level != Silent && exists e :: e in entries && e.level == PlanAll(entries)[i].level
      {
        if i < |PlanAll(init)| {
          assert PlanAll(entries)[i] == PlanAll(init)[i];
          var e :| e in init && e.level == PlanAll(init)[i].level;
          assert e in entries;
        } else {
          assert PlanAll(entries)[i] == Plan(last)[i - |PlanAll(init)|];
          assert last in entries;
        }
      }
    }
  }
}
