/**
  The plain-text sink (TextLogger.cs) without its I/O: the threshold gate,
  the demotion to Silent after a failed write, size-based rotation, the
  five-file retention policy and the crash-dump rendering. The file system
  is a map held by the sink; whether a write or a cleanup pass fails is an
  input of each call.
*/
module TextSink {
  import opened Platform
  import opened Strings
  import opened Levels
  import opened Entries
  import opened Files
  import opened DumpPlan

  const MaxFilesCount: nat := 5
  /** A work file longer than this many bytes makes the sink move on to a new file. */
  const MaxFileLength: nat := 1048576
  const DefaultLogPrefix: string := "Log_"
  const DefaultCrashPrefix: string := "Crash_"
  const FileExt: string := ".txt"

  /** The level column of a line. */
  function Tag(l: LogLevel): (t: string)
    ensures |t| <= 5
  {
    match l
    case Silent => ""
    case Error => "ERROR"
    case Warning => "WARN"
    case Info => "INFO"
    case Debug => "DEBUG"
  }

  /** FormatString: the timestamp left-aligned in 20 columns, a blank, the tag left-aligned in 5, two blanks, the message, a line break. */
  function FormatString(message: string, level: string, stamp: string): string
  {
    PadRight(stamp, 20) + " " + PadRight(level, 5) + "  " + message + NewLine
  }

  /**
    The timestamp fills at least 20 columns (a longer one, as the en-US
    general format gives, pushes everything after it right); then a blank,
    the tag in 5 columns and two blanks, so the message starts at column
    w + 8, where w is the wider of the timestamp and 20, and is followed only
    by the line break.
  */
  lemma FormatStringLayout(message: string, level: string, stamp: string)
    requires |level| <= 5
    ensures var line := FormatString(message, level, stamp);
      var w := if |stamp| < 20 then 20 else |stamp|;
      |line| == w + 8 + |message| + |NewLine|
      && line[..|stamp|] == stamp
      && (forall i :: |stamp| <= i < w + 1 ==> line[i] == ' ')
      && line[w + 1..w + 1 + |level|] == level
      && (forall i :: w + 1 + |level| <= i < w + 8 ==> line[i] == ' ')
      && line[w + 8..w + 8 + |message|] == message
      && line[w + 8 + |message|..] == NewLine
  {
    var a, b := PadRight(stamp, 20), PadRight(level, 5);
    var w := |a|;
    var line := FormatString(message, level, stamp);
    assert line == a + " " + b + "  " + message + NewLine;
    assert line[..w] == a;
    assert line[w + 1..w + 6] == b;
  }

  /** `Path.Combine(dir or the current directory, prefix + date + " at " + time + ".txt")`; no file is created yet. */
  function NewFilePath(prefix: string, dir: string, currentDir: string, now: Instant): (p: Path)
    ensures Matches(p, p.dir, prefix, FileExt)
    ensures p.dir == (if dir == "" then currentDir else dir)
  {
    Path(if dir == "" then currentDir else dir, prefix + now.date + " at " + now.time + FileExt)
  }

  /** Rotated work files are named apart by their counter. */
  lemma RotatedNamesDiffer(prefix: string, m: nat, n: nat)
    requires m != n
    ensures prefix + Decimal(m) + "_" != prefix + Decimal(n) + "_"
  {
    DecimalInjective(m, n);
    var a, b := prefix + Decimal(m) + "_", prefix + Decimal(n) + "_";
    assert a[|prefix|..|a| - 1] == Decimal(m);
    assert b[|prefix|..|b| - 1] == Decimal(n);
  }

  /** The text of one dump line. */
  function RenderItem(item: DumpItem, stamp: string): string
  {
    match item
    case MessageItem(level, text) => FormatString(text, Tag(level), stamp)
    case ExceptionItem(level, ex) => FormatString(ex.text, Tag(level), stamp)
  }

  /** The lines of a dump, in order. */
  function RenderItems(items: seq<DumpItem>, stamp: string): string
  {
    ConcatMap(items, item => RenderItem(item, stamp))
  }

  lemma RenderItemsAppend(a: seq<DumpItem>, b: seq<DumpItem>, stamp: string)
    ensures RenderItems(a + b, stamp) == RenderItems(a, stamp) + RenderItems(b, stamp)
  {
    ConcatMapAppend(a, b, item => RenderItem(item, stamp));
  }

  /** The first lines of a crash dump. */
  function DumpHeader(sender: string, version: string): string
  {
    sender + " ver. " + version + " CRASH DUMP" + NewLine + "===========================================" + NewLine + NewLine
  }

  /** The whole crash-dump file text (one timestamp reading stands for all lines). */
  function CrashDumpText(sender: string, version: string, entries: seq<LogEntry>, stamp: string): string
  {
    DumpHeader(sender, version) + RenderItems(PlanAll(entries), stamp)
  }

  /**
    The lines of the entries `a + b` are the lines of `a` followed by those
    of `b`: a crash dump keeps the order of the snapshot.
  */
  lemma CrashDumpInOrder(a: seq<LogEntry>, b: seq<LogEntry>, stamp: string)
    ensures RenderItems(PlanAll(a + b), stamp) == RenderItems(PlanAll(a), stamp) + RenderItems(PlanAll(b), stamp)
  {
    PlanAllAppend(a, b);
    RenderItemsAppend(PlanAll(a), PlanAll(b), stamp);
  }

  /** A Silent entry adds nothing to a crash dump. */
  lemma SilentEntryIsSkipped(sender: string, version: string, a: seq<LogEntry>, e: LogEntry, stamp: string)
    requires e.level == Silent
    ensures CrashDumpText(sender, version, a + [e], stamp) == CrashDumpText(sender, version, a, stamp)
  {
    ConcatMapSingle(e, Plan);
    assert RenderItems([], stamp) == "";
    CrashDumpInOrder(a, [e], stamp);
    assert RenderItems(PlanAll(a + [e]), stamp) == RenderItems(PlanAll(a), stamp);
  }

  /** The StringBuilder work of LogCrashDump: the header, then every entry's lines. */
  method RenderCrashDump(sender: string, version: string, entries: seq<LogEntry>, stamp: string) returns (dump: string)
    ensures dump == CrashDumpText(sender, version, entries, stamp)
  {
    dump := sender + " ver. " + version + " CRASH DUMP";
    dump := dump + NewLine;
    dump := dump + "===========================================";
    dump := dump + NewLine;
    dump := dump + NewLine;
    var body := RenderEntries(entries, stamp);
    dump := dump + body;
  }

  /** The loop over the snapshot: every entry's lines, entry after entry. */
  method RenderEntries(entries: seq<LogEntry>, stamp: string) returns (body: string)
    ensures body == RenderItems(PlanAll(entries), stamp)
  {
    body := "";
    for i := 0 to |entries|
      invariant body == RenderItems(PlanAll(entries[..i]), stamp)
    {
      body := AppendEntry(body, entries[i], stamp);
      RenderStep(entries, i, stamp);
    }
    assert entries[..|entries|] == entries;
  }

  lemma RenderStep(entries: seq<LogEntry>, i: nat, stamp: string)
    requires i < |entries|
    ensures RenderItems(PlanAll(entries[..i + 1]), stamp)
            == RenderItems(PlanAll(entries[..i]), stamp) + RenderItems(Plan(entries[i]), stamp)
  {
    assert entries[..i + 1][..i] == entries[..i];
    assert PlanAll(entries[..i + 1]) == PlanAll(entries[..i]) + Plan(entries[i]);
    RenderItemsAppend(PlanAll(entries[..i]), Plan(entries[i]), stamp);
  }

  /** One pass of the loop: the `switch (entry.Level)`. */
  method AppendEntry(dump: string, entry: LogEntry, stamp: string) returns (r: string)
    ensures r == dump + RenderItems(Plan(entry), stamp)
  {
    RenderPlan(entry, stamp);
    r := dump;
    match entry.level {
      case Debug =>
        r := r + FormatString(TextOf(entry.entry), "DEBUG", stamp);
      case Info =>
        r := r + FormatString(TextOf(entry.entry), "INFO", stamp);
      case Warning =>
        ghost var m := "";
        if !IsNullOrEmpty(entry.entry) {
          m := FormatString(entry.entry.value, "WARN", stamp);
          r := r + FormatString(entry.entry.value, "WARN", stamp);
        }
        ghost var x := if entry.exception.Some? then FormatString(entry.exception.value.text, "WARN", stamp) else "";
        if entry.exception.Some? {
          r := r + FormatString(entry.exception.value.text, "WARN", stamp);
        }
        Regroup(dump, m, x);
      case Error =>
        ghost var m := "";
        if !IsNullOrEmpty(entry.entry) {
          m := FormatString(entry.entry.value, "ERROR", stamp);
          r := r + FormatString(entry.entry.value, "ERROR", stamp);
        }
        ghost var x := if entry.exception.Some? then FormatString(entry.exception.value.text, "ERROR", stamp) else "";
        if entry.exception.Some? {
          r := r + FormatString(entry.exception.value.text, "ERROR", stamp);
        }
        Regroup(dump, m, x);
      case Silent =>
    }
  }

  /** The text each level's lines render to. */
  lemma RenderPlan(e: LogEntry, stamp: string)
    ensures e.level == Silent ==> RenderItems(Plan(e), stamp) == ""
    ensures e.level == Debug ==> RenderItems(Plan(e), stamp) == FormatString(TextOf(e.entry), "DEBUG", stamp)
    ensures e.level == Info ==> RenderItems(Plan(e), stamp) == FormatString(TextOf(e.entry), "INFO", stamp)
    ensures e.level == Warning || e.level == Error ==>
      RenderItems(Plan(e), stamp)
      == (if IsNullOrEmpty(e.entry) then "" else FormatString(e.entry.value, Tag(e.level), stamp))
         + (if e.exception.Some? then FormatString(e.exception.value.text, Tag(e.level), stamp) else "")
  {
    var f := item => RenderItem(item, stamp);
    var items := Plan(e);
    PlanByLevel(e);
    match e.level {
      case Silent =>
      case Debug =>
        ConcatMapSingle(MessageItem(Debug, TextOf(e.entry)), f);
      case Info =>
        ConcatMapSingle(MessageItem(Info, TextOf(e.entry)), f);
      case _ =>
        var m := if IsNullOrEmpty(e.entry) then [] else [MessageItem(e.level, e.entry.value)];
        var x := if e.exception.Some? then [ExceptionItem(e.level, e.exception.value)] else [];
        assert items == m + x;
        ConcatMapAppend(m, x, f);
        if m != [] { ConcatMapSingle(m[0], f); }
        if x != [] { ConcatMapSingle(x[0], f); }
    }
  }

  /**
    Whether the work file has outgrown MaxFileLength after a write. A work
    file that is not there (its first write failed) is not due.
  */
  function RotationDue(disk: Disk, path: Path): bool
  {
    path in disk && Length(disk[path]) > MaxFileLength
  }

  /**
    The size probe as written: `new FileInfo(path).Length` outside any try
    block. On a missing file it throws FileNotFoundException (None here),
    and the exception leaves WriteToFile and the LogX call that made it.
  */
  function RotationProbeAsWritten(disk: Disk, path: Path): (r: Option<bool>)
    ensures r.None? <==> path !in disk
    ensures r.Some? ==> r.value == RotationDue(disk, path)
  {
    if path !in disk then None else Some(Length(disk[path]) > MaxFileLength)
  }

  /** On a missing work file the probe as written throws, while RotationDue answers that no rotation is due. */
  lemma ProbeThrowsOnMissingFile(disk: Disk, path: Path)
    requires path !in disk
    ensures RotationProbeAsWritten(disk, path) == None
    ensures !RotationDue(disk, path)
  {
  }

  /**
    CreateNewFile only names the work file; the first write creates it. A
    sink built on a disk that lacks its first work path, whose first write
    fails, still has no work file: the probe as written throws out of that
    first LogX call, while RotationDue answers that no rotation is due and
    the call goes on to Cleanup.
  */
  method FirstWriteFailureThrowsAsWritten(directory: string, currentDir: string, disk: Disk, now: Instant,
                                          cleanupFails: bool, ms: string, later: Instant)
    returns (logger: TextLogger)
    requires NewFilePath(DefaultLogPrefix, directory, currentDir, now) !in disk
    ensures logger.workFilePath == NewFilePath(DefaultLogPrefix, directory, currentDir, now)
    ensures logger.workFilePath !in logger.disk && logger.logLevel == Silent
    ensures RotationProbeAsWritten(logger.disk, logger.workFilePath) == None
    ensures !RotationDue(logger.disk, logger.workFilePath)
  {
    logger := new TextLogger(directory, currentDir, disk, now, cleanupFails);
    logger.AppendToFile(ms, logger.workFilePath, later, true);
    ProbeThrowsOnMissingFile(logger.disk, logger.workFilePath);
  }

  /** Otherwise the probe as written and RotationDue agree. */
  lemma ProbeAgreesOnExistingFile(disk: Disk, path: Path)
    requires path in disk
    ensures RotationProbeAsWritten(disk, path) == Some(RotationDue(disk, path))
  {
  }

  class TextLogger {
    var logLevel: LogLevel
    var duplicateToConsole: bool
    var logPrefix: string
    var crashPrefix: string
    const workDir: string
    /** Directory.GetCurrentDirectory(): where Cleanup looks, and where paths go when `workDir` is empty. */
    const currentDir: string
    var workFilePath: Path
    var fileNum: nat
    var disk: Disk
    /** Lines mirrored to the console. */
    ghost var console: seq<string>

    /** Cleanup first, then the first work path. The threshold starts at Info. */
    constructor (directory: string, currentDir: string, disk: Disk, now: Instant, cleanupFails: bool)
      ensures workDir == directory && this.currentDir == currentDir
      ensures logLevel == (if cleanupFails then Silent else Info)
      ensures logPrefix == DefaultLogPrefix && crashPrefix == DefaultCrashPrefix && fileNum == 0
      ensures workFilePath == NewFilePath(DefaultLogPrefix, directory, currentDir, now)
      ensures !duplicateToConsole && console == []
      ensures cleanupFails ==> this.disk == disk
      ensures !cleanupFails ==> CleanedUp(disk, this.disk, currentDir, DefaultLogPrefix, DefaultCrashPrefix, FileExt, MaxFilesCount)
    {
      logLevel := Info;
      duplicateToConsole := false;
      logPrefix := DefaultLogPrefix;
      crashPrefix := DefaultCrashPrefix;
      workDir := directory;
      this.currentDir := currentDir;
      fileNum := 0;
      this.disk := disk;
      console := [];
      workFilePath := NewFilePath(DefaultLogPrefix, directory, currentDir, now);
      new;
      Cleanup(cleanupFails);
    }

    /** The LogLevel setter. */
    method SetLogLevel(level: LogLevel)
      modifies this`logLevel
      ensures logLevel == level
    {
      logLevel := level;
    }

    /** The DuplicateToConsole setter. */
    method SetDuplicateToConsole(value: bool)
      modifies this`duplicateToConsole
      ensures duplicateToConsole == value
    {
      duplicateToConsole := value;
    }

    /** The CrashPreffix setter. */
    method SetCrashPrefix(value: string)
      modifies this`crashPrefix
      ensures crashPrefix == value
    {
      crashPrefix := value;
    }

    /** The LogPreffix setter: delete the current work file, then start a new one under the new prefix. */
    method SetLogPrefix(value: string, now: Instant)
      modifies this`disk, this`logPrefix, this`workFilePath
      ensures disk == old(disk) - {old(workFilePath)}
      ensures logPrefix == value
      ensures workFilePath == NewFilePath(value, workDir, currentDir, now)
    {
      disk := disk - {workFilePath};
      logPrefix := value;
      workFilePath := NewFilePath(logPrefix, workDir, currentDir, now);
    }

    /** Cleanup: keep the five newest files of each prefix in the current directory; any failure silences the sink. */
    method Cleanup(fails: bool)
      modifies this`disk, this`logLevel
      ensures fails ==> disk == old(disk) && logLevel == Silent
      ensures !fails ==> logLevel == old(logLevel)
      ensures !fails ==> CleanedUp(old(disk), disk, currentDir, logPrefix, crashPrefix, FileExt, MaxFilesCount)
    {
      if fails {
        logLevel := Silent;
      } else {
        disk := Files.Cleanup(disk, currentDir, logPrefix, crashPrefix, FileExt, MaxFilesCount);
      }
    }

    method WriteToConsole(ms: string)
      modifies this`console
      ensures console == old(console) + if duplicateToConsole then [ms] else []
    {
      if duplicateToConsole {
        console := console + [ms];
      }
    }

    /** WriteToFile(message, path): append; a failure silences the sink and leaves the disk as it was. */
    method AppendToFile(message: string, path: Path, now: Instant, fails: bool)
      modifies this`disk, this`logLevel
      ensures fails ==> disk == old(disk) && logLevel == Silent
      ensures !fails ==> disk == Append(old(disk), path, message, now.ticks) && logLevel == old(logLevel)
    {
      if fails {
        logLevel := Silent;
      } else {
        disk := Append(disk, path, message, now.ticks);
      }
    }

    /** The new state after WriteToFile(message): append to the work file, rotate past 1 MiB, clean up. */
    twostate predicate Wrote(message: string, now: Instant, writeFails: bool, cleanupFails: bool)
      reads this
    {
      var written := if writeFails then old(disk) else Append(old(disk), old(workFilePath), message, now.ticks);
      var rotate := RotationDue(written, old(workFilePath));
      && logLevel == (if writeFails || cleanupFails then Silent else old(logLevel))
      && fileNum == old(fileNum) + (if rotate then 1 else 0)
      && workFilePath == (if rotate then NewFilePath(logPrefix + Decimal(fileNum) + "_", workDir, currentDir, now)
                          else old(workFilePath))
      && (cleanupFails ==> disk == written)
      && (!cleanupFails ==> CleanedUp(written, disk, currentDir, logPrefix, crashPrefix, FileExt, MaxFilesCount))
      && logPrefix == old(logPrefix) && crashPrefix == old(crashPrefix)
      && duplicateToConsole == old(duplicateToConsole)
    }

    /** WriteToFile(message): append to the work file, rotate past 1 MiB, clean up. */
    method WriteToFile(message: string, now: Instant, writeFails: bool, cleanupFails: bool)
      modifies this`disk, this`logLevel, this`fileNum, this`workFilePath
      ensures Wrote(message, now, writeFails, cleanupFails)
    {
      AppendToFile(message, workFilePath, now, writeFails);
      if RotationDue(disk, workFilePath) {
        fileNum := fileNum + 1;
        workFilePath := NewFilePath(logPrefix + Decimal(fileNum) + "_", workDir, currentDir, now);
      }
      Cleanup(cleanupFails);
    }

    /** The new state of a LogX call that passed the threshold test with line `ms`. */
    twostate predicate Logged(ms: string, now: Instant, writeFails: bool, cleanupFails: bool)
      reads this
    {
      Wrote(ms, now, writeFails, cleanupFails) && console == old(console) + (if duplicateToConsole then [ms] else [])
    }

    method Emit(ms: string, now: Instant, writeFails: bool, cleanupFails: bool)
      modifies this`disk, this`logLevel, this`fileNum, this`workFilePath, this`console
      ensures Logged(ms, now, writeFails, cleanupFails)
    {
      WriteToConsole(ms);
      WriteToFile(ms, now, writeFails, cleanupFails);
    }

    method LogDebug(message: string, now: Instant, writeFails: bool, cleanupFails: bool)
      modifies this
      ensures !Admits(old(logLevel), Debug) ==> unchanged(this)
      ensures Admits(old(logLevel), Debug) ==> Logged(FormatString(message, "DEBUG", now.general), now, writeFails, cleanupFails)
    {
      if Admits(logLevel, Debug) {
        Emit(FormatString(message, "DEBUG", now.general), now, writeFails, cleanupFails);
      }
    }

    method LogInfo(message: string, now: Instant, writeFails: bool, cleanupFails: bool)
      modifies this
      ensures !Admits(old(logLevel), Info) ==> unchanged(this)
      ensures Admits(old(logLevel), Info) ==> Logged(FormatString(message, "INFO", now.general), now, writeFails, cleanupFails)
    {
      if Admits(logLevel, Info) {
        Emit(FormatString(message, "INFO", now.general), now, writeFails, cleanupFails);
      }
    }

    /** LogWarning(Exception ex): the line holds ex.ToString(). */
    method LogWarningException(ex: Exception, now: Instant, writeFails: bool, cleanupFails: bool)
      modifies this
      ensures !Admits(old(logLevel), Warning) ==> unchanged(this)
      ensures Admits(old(logLevel), Warning) ==> Logged(FormatString(ex.text, "WARN", now.general), now, writeFails, cleanupFails)
    {
      if Admits(logLevel, Warning) {
        Emit(FormatString(ex.text, "WARN", now.general), now, writeFails, cleanupFails);
      }
    }

    method LogWarning(message: string, now: Instant, writeFails: bool, cleanupFails: bool)
      modifies this
      ensures !Admits(old(logLevel), Warning) ==> unchanged(this)
      ensures Admits(old(logLevel), Warning) ==> Logged(FormatString(message, "WARN", now.general), now, writeFails, cleanupFails)
    {
      if Admits(logLevel, Warning) {
        Emit(FormatString(message, "WARN", now.general), now, writeFails, cleanupFails);
      }
    }

    /** LogError(Exception ex): the line holds ex.ToString(). */
    method LogErrorException(ex: Exception, now: Instant, writeFails: bool, cleanupFails: bool)
      modifies this
      ensures !Admits(old(logLevel), Error) ==> unchanged(this)
      ensures Admits(old(logLevel), Error) ==> Logged(FormatString(ex.text, "ERROR", now.general), now, writeFails, cleanupFails)
    {
      if Admits(logLevel, Error) {
        Emit(FormatString(ex.text, "ERROR", now.general), now, writeFails, cleanupFails);
      }
    }

    method LogError(message: string, now: Instant, writeFails: bool, cleanupFails: bool)
      modifies this
      ensures !Admits(old(logLevel), Error) ==> unchanged(this)
      ensures Admits(old(logLevel), Error) ==> Logged(FormatString(message, "ERROR", now.general), now, writeFails, cleanupFails)
    {
      if Admits(logLevel, Error) {
        Emit(FormatString(message, "ERROR", now.general), now, writeFails, cleanupFails);
      }
    }

    /**
      A failed write silences the sink for good: the write leaves it Silent,
      and every leveled call after it (here one of each, with their own clock
      reading and failure flags) leaves the sink exactly as the failed write
      left it.
    */
    method FailedWriteSilencesForGood(ms: string, now: Instant, cleanupFails: bool,
                                      message: string, ex: Exception, later: Instant,
                                      laterWriteFails: bool, laterCleanupFails: bool)
      modifies this
      ensures logLevel == Silent
      ensures Wrote(ms, now, true, cleanupFails) && console == old(console)
    {
      WriteToFile(ms, now, true, cleanupFails);
      assert logLevel == Silent;
      assert !Admits(Silent, Debug) && !Admits(Silent, Info) && !Admits(Silent, Warning) && !Admits(Silent, Error);
      LogDebug(message, later, laterWriteFails, laterCleanupFails);
      LogInfo(message, later, laterWriteFails, laterCleanupFails);
      LogWarningException(ex, later, laterWriteFails, laterCleanupFails);
      LogWarning(message, later, laterWriteFails, laterCleanupFails);
      LogErrorException(ex, later, laterWriteFails, laterCleanupFails);
      LogError(message, later, laterWriteFails, laterCleanupFails);
    }

    /**
      LogCrashDump: render every entry into a new crash file. It is not gated
      by the threshold; a failed write silences the sink.
    */
    method LogCrashDump(sender: string, version: string, entries: seq<LogEntry>, now: Instant, writeFails: bool)
      modifies this`disk, this`logLevel
      ensures var path := NewFilePath(crashPrefix, workDir, currentDir, now);
        if writeFails then disk == old(disk) && logLevel == Silent
        else disk == Append(old(disk), path, CrashDumpText(sender, version, entries, now.general), now.ticks)
             && logLevel == old(logLevel)
    {
      var path := NewFilePath(crashPrefix, workDir, currentDir, now);
      var dump := RenderCrashDump(sender, version, entries, now.general);
      AppendToFile(dump, path, now, writeFails);
    }
  }
}
