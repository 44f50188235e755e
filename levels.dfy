/**
  The severity scale and the two listener contracts the dispatcher calls into
  (IDebugListener.cs).
*/
module Levels {
  import opened Platform

  /** LogLevel: Silent=0, Error=1, Warning=2, Info=3, Debug=4. */
  datatype LogLevel = Silent | Error | Warning | Info | Debug

  /** The enum's underlying value. */
  function Ordinal(l: LogLevel): (n: nat)
    ensures n <= 4
  {
    match l
    case Silent => 0
    case Error => 1
    case Warning => 2
    case Info => 3
    case Debug => 4
  }

  /** The cast `(LogLevel)n` for the five declared values. */
  function FromOrdinal(n: nat): (l: LogLevel)
    requires n <= 4
    ensures Ordinal(l) == n
  {
    if n == 0 then Silent
    else if n == 1 then Error
    else if n == 2 then Warning
    else if n == 3 then Info
    else Debug
  }

  /** Distinct levels have distinct ordinals, so `>=` on levels is a total order. */
  lemma OrdinalRoundTrip(l: LogLevel)
    ensures FromOrdinal(Ordinal(l)) == l
  {
  }

  /** The sink test `threshold >= level`. */
  predicate Admits(threshold: LogLevel, level: LogLevel)
  {
    Ordinal(threshold) >= Ordinal(level)
  }

  /** `Admits` is a total order on the five levels. */
  lemma AdmitsIsTotalOrder(a: LogLevel, b: LogLevel, c: LogLevel)
    ensures Admits(a, a)
    ensures Admits(a, b) && Admits(b, a) ==> a == b
    ensures Admits(a, b) && Admits(b, c) ==> Admits(a, c)
    ensures Admits(a, b) || Admits(b, a)
  {
    OrdinalRoundTrip(a);
    OrdinalRoundTrip(b);
  }

  /** A Silent threshold admits nothing but Silent itself; a Debug threshold admits everything. */
  lemma SilentAndDebugAreExtremes(l: LogLevel)
    ensures Admits(Silent, l) <==> l == Silent
    ensures Admits(Debug, l)
    ensures Admits(l, Silent)
  {
  }

  /** What a Warning or Error call carries: a message or an exception. */
  datatype Payload = Message(text: string) | Fault(ex: Exception)

  /**
    One call on IDebugListener. Debug and Info take only a message; Warning
    and Error take either a message or an exception.
  */
  datatype ListenerCall =
    | LogDebug(message: string)
    | LogInfo(message: string)
    | LogWarning(payload: Payload)
    | LogError(payload: Payload)

  /** The severity a listener method is named after. */
  function CallLevel(c: ListenerCall): (l: LogLevel)
    ensures l != Silent
  {
    match c
    case LogDebug(_) => Debug
    case LogInfo(_) => Info
    case LogWarning(_) => Warning
    case LogError(_) => Error
  }

  /** Whether a call hands the listener an exception object rather than a message. */
  predicate CarriesException(c: ListenerCall)
  {
    (c.LogWarning? || c.LogError?) && c.payload.Fault?
  }

  /**
    Only Warning and Error calls can carry an exception, and each of them can
    carry any exception.
  */
  lemma OnlyWarningAndErrorCarryExceptions(c: ListenerCall, ex: Exception)
    ensures CarriesException(c) ==> CallLevel(c) == Warning || CallLevel(c) == Error
    ensures CarriesException(LogWarning(Fault(ex))) && CallLevel(LogWarning(Fault(ex))) == Warning
    ensures CarriesException(LogError(Fault(ex))) && CallLevel(LogError(Fault(ex))) == Error
  {
  }

  /** One call on IDebugCrashDumper.LogCrashDump: sender, version and the entries in order. */
  datatype DumpCall<E> = CrashDump(sender: string, version: string, entries: seq<E>)
}
