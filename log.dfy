/**
  The dispatcher (Log.cs): the bounded crash-dump history, the two ordered
  listener registries and the fan-out of every log call. Listeners are
  abstract references; every call the dispatcher makes on one is recorded in
  a ghost trace, together with the platform side effects of the
  unhandled-exception handler.
*/
module Dispatch {
  import opened Platform
  import opened Levels
  import opened Entries
  import opened Queues

  /** A reference to a registered IDebugListener. */
  type ListenerId = nat
  /** A reference to a registered IDebugCrashDumper. */
  type DumperId = nat

  /** What an observer outside the dispatcher sees happen. */
  datatype Event =
    | Called(listener: ListenerId, call: ListenerCall)
    | Dumped(dumper: DumperId, dump: DumpCall<LogEntry>)
    | MessageBoxShown(text: string, caption: string)
    | Exited(code: int)

  /** CrashDumpCacheLimit: the capacity of the history. */
  const CrashDumpCacheLimit: nat := 60

  /** The `foreach` over the system listeners: one call per registration, in registration order. */
  function FanOut(listeners: seq<ListenerId>, call: ListenerCall): (events: seq<Event>)
    ensures |events| == |listeners|
  {
    if listeners == [] then []
    else FanOut(listeners[..|listeners| - 1], call) + [Called(listeners[|listeners| - 1], call)]
  }

  /** The `foreach` over the crash-dump listeners, all handed the same call. */
  function DumpFanOut(dumpers: seq<DumperId>, dump: DumpCall<LogEntry>): (events: seq<Event>)
    ensures |events| == |dumpers|
  {
    if dumpers == [] then []
    else DumpFanOut(dumpers[..|dumpers| - 1], dump) + [Dumped(dumpers[|dumpers| - 1], dump)]
  }

  /**
    The i-th event of a fan-out is the call on the i-th registered listener:
    every registration is called exactly once, in order, with the same call
    whatever its level (the dispatcher does no filtering).
  */
  lemma {:induction false} FanOutInOrder(listeners: seq<ListenerId>, call: ListenerCall)
    ensures forall i :: 0 <= i < |listeners| ==> FanOut(listeners, call)[i] == Called(listeners[i], call)
  {
    if listeners != [] {
      FanOutInOrder(listeners[..|listeners| - 1], call);
    }
  }

  /** A listener is called by a fan-out if and only if it is registered. */
  lemma ReachedIffRegistered(listeners: seq<ListenerId>, call: ListenerCall, l: ListenerId)
    ensures Called(l, call) in FanOut(listeners, call) <==> l in listeners
  {
    FanOutInOrder(listeners, call);
    if Called(l, call) in FanOut(listeners, call) {
      var i :| 0 <= i < |listeners| && FanOut(listeners, call)[i] == Called(l, call);
      assert listeners[i] == l;
    }
  }

  /** Every crash-dump listener receives the identical snapshot, in registration order. */
  lemma {:induction false} DumpFanOutSharesSnapshot(dumpers: seq<DumperId>, dump: DumpCall<LogEntry>)
    ensures forall i :: 0 <= i < |dumpers| ==> DumpFanOut(dumpers, dump)[i] == Dumped(dumpers[i], dump)
  {
    if dumpers != [] {
      DumpFanOutSharesSnapshot(dumpers[..|dumpers| - 1], dump);
    }
  }

  /**
    The position of the first registration whose call throws (`throwing`
    holds the references whose call throws this time), or the count when
    none does. The `foreach` has no try block, so it ends there.
  */
  function FirstThrow<T>(s: seq<T>, throwing: set<T>): (k: nat)
    ensures k <= |s|
    ensures forall i :: 0 <= i < k ==> s[i] !in throwing
    ensures k < |s| ==> s[k] in throwing
  {
    if s == [] then 0
    else if s[0] in throwing then 0
    else 1 + FirstThrow(s[1..], throwing)
  }

  /** How many registrations a `foreach` calls: all of them, or up to and including the first that throws. */
  function Reached<T>(s: seq<T>, throwing: set<T>): nat
  {
    if FirstThrow(s, throwing) < |s| then FirstThrow(s, throwing) + 1 else |s|
  }

  /**
    A fan-out cut short by a throwing listener is a prefix of the full
    fan-out: the listeners before it are called as usual, the thrower is
    called, and no later registration is called.
  */
  lemma FanOutPrefix(listeners: seq<ListenerId>, call: ListenerCall, n: nat)
    requires n <= |listeners|
    ensures FanOut(listeners[..n], call) == FanOut(listeners, call)[..n]
  {
    FanOutInOrder(listeners[..n], call);
    FanOutInOrder(listeners, call);
  }

  lemma DumpFanOutPrefix(dumpers: seq<DumperId>, dump: DumpCall<LogEntry>, n: nat)
    requires n <= |dumpers|
    ensures DumpFanOut(dumpers[..n], dump) == DumpFanOut(dumpers, dump)[..n]
  {
    DumpFanOutSharesSnapshot(dumpers[..n], dump);
    DumpFanOutSharesSnapshot(dumpers, dump);
  }

  /** When no registration throws, every one is reached; when one does, the fan-out stops right after it. */
  lemma ReachedByThrowing<T>(s: seq<T>, throwing: set<T>)
    ensures (forall i :: 0 <= i < |s| ==> s[i] !in throwing) <==> Reached(s, throwing) == |s| && FirstThrow(s, throwing) == |s|
    ensures FirstThrow(s, throwing) < |s| ==> Reached(s, throwing) == FirstThrow(s, throwing) + 1 && s[Reached(s, throwing) - 1] in throwing
  {
  }

  /** The history after one log call: the entry is enqueued only while crash dumping is on. */
  function Record(history: seq<LogEntry>, doCrashDump: bool, entry: LogEntry): seq<LogEntry>
  {
    if doCrashDump then LastN(history + [entry], CrashDumpCacheLimit) else history
  }

  /** A log call never lets the history exceed its capacity, and a recorded entry is the newest one. */
  lemma RecordKeepsBound(history: seq<LogEntry>, doCrashDump: bool, entry: LogEntry)
    ensures |history| <= CrashDumpCacheLimit ==> |Record(history, doCrashDump, entry)| <= CrashDumpCacheLimit
    ensures doCrashDump ==> |Record(history, doCrashDump, entry)| >= 1
    ensures doCrashDump ==> Record(history, doCrashDump, entry)[|Record(history, doCrashDump, entry)| - 1] == entry
    ensures !doCrashDump ==> Record(history, doCrashDump, entry) == history
  {
    if doCrashDump {
      NewestIsRetained(history, entry, CrashDumpCacheLimit);
    }
  }

  /** List<T>.IndexOf: the position of the first occurrence of `x`, or -1. */
  function IndexOf<T(==)>(s: seq<T>, x: T): (k: int)
    ensures -1 <= k < |s|
    ensures k == -1 <==> x !in s
    ensures k >= 0 ==> s[k] == x && x !in s[..k]
  {
    if s == [] then -1
    else if s[0] == x then 0
    else
      var k := IndexOf(s[1..], x);
      assert s[1..][..if k < 0 then 0 else k] == s[1..if k < 0 then 1 else k + 1];
      if k < 0 then -1 else k + 1
  }

  /** List<T>.Remove: deletes the first occurrence of `x`, if there is one. */
  function RemoveFirst<T(==)>(s: seq<T>, x: T): seq<T>
  {
    var k := IndexOf(s, x);
    if k < 0 then s else s[..k] + s[k + 1..]
  }

  /**
    Removal takes out exactly one occurrence (the first) and keeps every other
    registration, duplicates of `x` included, in its order.
  */
  lemma RemoveFirstTakesOneOccurrence<T>(s: seq<T>, x: T)
    ensures x !in s ==> RemoveFirst(s, x) == s
    ensures x in s ==> |RemoveFirst(s, x)| == |s| - 1
    ensures x in s ==> RemoveFirst(s, x)[..IndexOf(s, x)] == s[..IndexOf(s, x)]
                       && RemoveFirst(s, x)[IndexOf(s, x)..] == s[IndexOf(s, x) + 1..]
    ensures multiset(RemoveFirst(s, x)) == multiset(s) - multiset{x}
  {
    var k := IndexOf(s, x);
    if k >= 0 {
      var r := s[..k] + s[k + 1..];
      assert RemoveFirst(s, x) == r;
      SplitAt(s, k);
      assert multiset(s) == multiset(r) + multiset{x};
    }
  }

  lemma SplitAt<T>(s: seq<T>, k: nat)
    requires k < |s|
    ensures multiset(s) == multiset(s[..k] + s[k + 1..]) + multiset{s[k]}
  {
    assert s == s[..k] + [s[k]] + s[k + 1..];
  }

  /** What the termination notification carries: an Exception, or some other object. */
  datatype UnhandledPayload = ExceptionObject(ex: Exception) | OtherObject

  /** The text of the fatal-error message box. */
  function FatalNotice(ex: Exception): string
  {
    "Fatal error: " + ex.kind + ": " + ex.message + NewLine + "Details in the crashdump."
  }

  /** The static Log class, as an object. */
  class Log {
    /** Crshdump */
    const crshdump: FixedSizeQueue<LogEntry>
    var doCrashDump: bool
    var systemListeners: seq<ListenerId>
    var crashDumpListeners: seq<DumperId>
    /** Every call made on a listener and every platform side effect, in order. */
    ghost var trace: seq<Event>

    ghost predicate Valid()
      reads this, crshdump
    {
      crshdump.limit == CrashDumpCacheLimit && |crshdump.items| <= CrashDumpCacheLimit
    }

    /** The history, oldest first. */
    function History(): seq<LogEntry>
      reads this, crshdump
    {
      crshdump.items
    }

    /** The static constructor: an empty history of capacity 60, crash dumping on, no listeners. */
    constructor ()
      ensures Valid() && fresh(crshdump)
      ensures History() == [] && doCrashDump
      ensures systemListeners == [] && crashDumpListeners == [] && trace == []
    {
      crshdump := new FixedSizeQueue<LogEntry>(CrashDumpCacheLimit);
      doCrashDump := true;
      systemListeners := [];
      crashDumpListeners := [];
      trace := [];
    }

    /** The DoCrashDump setter. */
    method SetDoCrashDump(value: bool)
      modifies this`doCrashDump
      ensures doCrashDump == value
    {
      doCrashDump := value;
    }

    method RegisterSystemEventListener(logger: ListenerId)
      modifies this`systemListeners
      ensures systemListeners == old(systemListeners) + [logger]
    {
      systemListeners := systemListeners + [logger];
    }

    method RemoveSystemEventListener(logger: ListenerId)
      modifies this`systemListeners
      ensures systemListeners == RemoveFirst(old(systemListeners), logger)
    {
      systemListeners := RemoveFirst(systemListeners, logger);
    }

    method RegisterCrashDumpListener(logger: DumperId)
      modifies this`crashDumpListeners
      ensures crashDumpListeners == old(crashDumpListeners) + [logger]
    {
      crashDumpListeners := crashDumpListeners + [logger];
    }

    method RemoveCrashDumpListener(logger: DumperId)
      modifies this`crashDumpListeners
      ensures crashDumpListeners == RemoveFirst(old(crashDumpListeners), logger)
    {
      crashDumpListeners := RemoveFirst(crashDumpListeners, logger);
    }

    /**
      When crash dumping is on: one snapshot of the history, handed to every
      crash-dump listener in order until one throws (`threw`); the exception
      then leaves LogCrashDump and the later listeners get nothing.
    */
    method LogCrashDump(sender: string, version: string, throwing: set<DumperId>) returns (threw: bool)
      requires Valid()
      modifies this`trace
      ensures threw <==> doCrashDump && FirstThrow(crashDumpListeners, throwing) < |crashDumpListeners|
      ensures trace == old(trace) +
        if doCrashDump
        then DumpFanOut(crashDumpListeners[..Reached(crashDumpListeners, throwing)], CrashDump(sender, version, History()))
        else []
    {
      threw := false;
      if doCrashDump {
        var lastEntries := crshdump.items;
        var i := 0;
        while i < |crashDumpListeners| && !threw
          invariant 0 <= i <= |crashDumpListeners|
          invariant !threw ==> i <= FirstThrow(crashDumpListeners, throwing)
          invariant threw ==> i == FirstThrow(crashDumpListeners, throwing) + 1
          invariant trace == old(trace) + DumpFanOut(crashDumpListeners[..i], CrashDump(sender, version, lastEntries))
          invariant crshdump.items == lastEntries
        {
          assert crashDumpListeners[..i + 1][..i] == crashDumpListeners[..i];
          trace := trace + [Dumped(crashDumpListeners[i], CrashDump(sender, version, lastEntries))];
          threw := crashDumpListeners[i] in throwing;
          i := i + 1;
        }
      }
    }

    /**
      The body every log call shares: record the entry if crash dumping is on,
      then call the system listeners in order until one throws (`threw`); the
      entry stays recorded and the exception leaves the log call.
    */
    method Dispatch(entry: LogEntry, call: ListenerCall, throwing: set<ListenerId>) returns (threw: bool)
      requires Valid()
      modifies this`trace, crshdump`items
      ensures Valid()
      ensures History() == Record(old(History()), doCrashDump, entry)
      ensures threw <==> FirstThrow(systemListeners, throwing) < |systemListeners|
      ensures trace == old(trace) + FanOut(systemListeners[..Reached(systemListeners, throwing)], call)
    {
      if doCrashDump {
        crshdump.Enqueue(entry);
      }
      RecordKeepsBound(old(History()), doCrashDump, entry);
      threw := false;
      var i := 0;
      while i < |systemListeners| && !threw
        invariant 0 <= i <= |systemListeners|
        invariant !threw ==> i <= FirstThrow(systemListeners, throwing)
        invariant threw ==> i == FirstThrow(systemListeners, throwing) + 1
        invariant trace == old(trace) + FanOut(systemListeners[..i], call)
        invariant Valid() && History() == Record(old(History()), doCrashDump, entry)
      {
        assert systemListeners[..i + 1][..i] == systemListeners[..i];
        trace := trace + [Called(systemListeners[i], call)];
        threw := systemListeners[i] in throwing;
        i := i + 1;
      }
    }

    /** Error(string message) */
    method Error(message: string, now: Instant, throwing: set<ListenerId>) returns (threw: bool)
      requires Valid()
      modifies this`trace, crshdump`items
      ensures Valid()
      ensures History() == Record(old(History()), doCrashDump, NewEntry(Some(message), now, LogLevel.Error))
      ensures threw <==> FirstThrow(systemListeners, throwing) < |systemListeners|
      ensures trace == old(trace) + FanOut(systemListeners[..Reached(systemListeners, throwing)], LogError(Message(message)))
    {
      threw := Dispatch(NewEntry(Some(message), now, LogLevel.Error), LogError(Message(message)), throwing);
    }

    /** Error(Exception ex): the entry has a null message. */
    method ErrorException(ex: Exception, now: Instant, throwing: set<ListenerId>) returns (threw: bool)
      requires Valid()
      modifies this`trace, crshdump`items
      ensures Valid()
      ensures History() == Record(old(History()), doCrashDump, NewEntry(None, now, LogLevel.Error, Some(ex)))
      ensures threw <==> FirstThrow(systemListeners, throwing) < |systemListeners|
      ensures trace == old(trace) + FanOut(systemListeners[..Reached(systemListeners, throwing)], LogError(Fault(ex)))
    {
      threw := Dispatch(NewEntry(None, now, LogLevel.Error, Some(ex)), LogError(Fault(ex)), throwing);
    }

    /** Error(string message, Exception ex): both are stored; listeners get `message + NewLine + ex`. */
    method ErrorWithException(message: string, ex: Exception, now: Instant, throwing: set<ListenerId>) returns (threw: bool)
      requires Valid()
      modifies this`trace, crshdump`items
      ensures Valid()
      ensures History() == Record(old(History()), doCrashDump, NewEntry(Some(message), now, LogLevel.Error, Some(ex)))
      ensures threw <==> FirstThrow(systemListeners, throwing) < |systemListeners|
      ensures trace == old(trace) + FanOut(systemListeners[..Reached(systemListeners, throwing)], LogError(Message(message + NewLine + ex.text)))
    {
      threw := Dispatch(NewEntry(Some(message), now, LogLevel.Error, Some(ex)), LogError(Message(message + NewLine + ex.text)), throwing);
    }

    /** Warning(string message) */
    method Warning(message: string, now: Instant, throwing: set<ListenerId>) returns (threw: bool)
      requires Valid()
      modifies this`trace, crshdump`items
      ensures Valid()
      ensures History() == Record(old(History()), doCrashDump, NewEntry(Some(message), now, LogLevel.Warning))
      ensures threw <==> FirstThrow(systemListeners, throwing) < |systemListeners|
      ensures trace == old(trace) + FanOut(systemListeners[..Reached(systemListeners, throwing)], LogWarning(Message(message)))
    {
      threw := Dispatch(NewEntry(Some(message), now, LogLevel.Warning), LogWarning(Message(message)), throwing);
    }

    /** Warning(Exception ex): the entry has a null message. */
    method WarningException(ex: Exception, now: Instant, throwing: set<ListenerId>) returns (threw: bool)
      requires Valid()
      modifies this`trace, crshdump`items
      ensures Valid()
      ensures History() == Record(old(History()), doCrashDump, NewEntry(None, now, LogLevel.Warning, Some(ex)))
      ensures threw <==> FirstThrow(systemListeners, throwing) < |systemListeners|
      ensures trace == old(trace) + FanOut(systemListeners[..Reached(systemListeners, throwing)], LogWarning(Fault(ex)))
    {
      threw := Dispatch(NewEntry(None, now, LogLevel.Warning, Some(ex)), LogWarning(Fault(ex)), throwing);
    }

    /** Warning(string message, Exception ex): both are stored; listeners get `message + NewLine + ex`. */
    method WarningWithException(message: string, ex: Exception, now: Instant, throwing: set<ListenerId>) returns (threw: bool)
      requires Valid()
      modifies this`trace, crshdump`items
      ensures Valid()
      ensures History() == Record(old(History()), doCrashDump, NewEntry(Some(message), now, LogLevel.Warning, Some(ex)))
      ensures threw <==> FirstThrow(systemListeners, throwing) < |systemListeners|
      ensures trace == old(trace) + FanOut(systemListeners[..Reached(systemListeners, throwing)], LogWarning(Message(message + NewLine + ex.text)))
    {
      threw := Dispatch(NewEntry(Some(message), now, LogLevel.Warning, Some(ex)), LogWarning(Message(message + NewLine + ex.text)), throwing);
    }

    /** Info(string message) */
    method Info(message: string, now: Instant, throwing: set<ListenerId>) returns (threw: bool)
      requires Valid()
      modifies this`trace, crshdump`items
      ensures Valid()
      ensures History() == Record(old(History()), doCrashDump, NewEntry(Some(message), now, LogLevel.Info))
      ensures threw <==> FirstThrow(systemListeners, throwing) < |systemListeners|
      ensures trace == old(trace) + FanOut(systemListeners[..Reached(systemListeners, throwing)], LogInfo(message))
    {
      threw := Dispatch(NewEntry(Some(message), now, LogLevel.Info), LogInfo(message), throwing);
    }

    /** Debug(string message) */
    method Debug(message: string, now: Instant, throwing: set<ListenerId>) returns (threw: bool)
      requires Valid()
      modifies this`trace, crshdump`items
      ensures Valid()
      ensures History() == Record(old(History()), doCrashDump, NewEntry(Some(message), now, LogLevel.Debug))
      ensures threw <==> FirstThrow(systemListeners, throwing) < |systemListeners|
      ensures trace == old(trace) + FanOut(systemListeners[..Reached(systemListeners, throwing)], LogDebug(message))
    {
      threw := Dispatch(NewEntry(Some(message), now, LogLevel.Debug), LogDebug(message), throwing);
    }

    /**
      CurrentDomain_UnhandledException: ignore anything but an Exception;
      otherwise log it at Error, dump the history (which now ends with that
      entry) under the thread's name with an empty version, show the fatal
      message box and exit with the exception's HResult, in that order. A
      listener or crash dumper that throws ends the handler there (`threw`),
      and none of the later steps happen. `domain` is AppDomain.CurrentDomain's
      rendering and `threadName` the current thread's name (empty when it has
      none).
    */
    method CurrentDomainUnhandledException(payload: UnhandledPayload, domain: string, threadName: string, now: Instant,
                                           throwingListeners: set<ListenerId>, throwingDumpers: set<DumperId>)
      returns (threw: bool)
      requires Valid()
      modifies this`trace, crshdump`items
      ensures Valid()
      ensures payload.OtherObject? ==> History() == old(History()) && trace == old(trace) && !threw
      ensures payload.ExceptionObject? ==>
        History() == Record(old(History()), doCrashDump,
                            NewEntry(Some("Unhandled exception in " + domain), now, LogLevel.Error, Some(payload.ex)))
      ensures payload.ExceptionObject? ==>
        var logged := old(trace) + FanOut(systemListeners[..Reached(systemListeners, throwingListeners)],
                                          LogError(Message("Unhandled exception in " + domain + NewLine + payload.ex.text)));
        var dumped := logged + (if doCrashDump
                                then DumpFanOut(crashDumpListeners[..Reached(crashDumpListeners, throwingDumpers)],
                                                CrashDump(threadName, "", History()))
                                else []);
        if FirstThrow(systemListeners, throwingListeners) < |systemListeners| then trace == logged && threw
        else if doCrashDump && FirstThrow(crashDumpListeners, throwingDumpers) < |crashDumpListeners| then trace == dumped && threw
        else trace == dumped + [MessageBoxShown(FatalNotice(payload.ex), "Error"), Exited(payload.ex.hResult)] && !threw
      ensures payload.ExceptionObject? && doCrashDump ==>
        |History()| >= 1 && History()[|History()| - 1].exception == Some(payload.ex)
    {
      if payload.OtherObject? {
        return false;
      }
      var ex := payload.ex;
      RecordKeepsBound(old(History()), doCrashDump,
                       NewEntry(Some("Unhandled exception in " + domain), now, LogLevel.Error, Some(ex)));
      threw := ErrorWithException("Unhandled exception in " + domain, ex, now, throwingListeners);
      if threw {
        return;
      }
      threw := LogCrashDump(threadName, "", throwingDumpers);
      if threw {
        return;
      }
      trace := trace + [MessageBoxShown(FatalNotice(ex), "Error")];
      trace := trace + [Exited(ex.hResult)];
    }
  }
}
