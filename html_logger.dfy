/**
  The HTML sink (HTMLLogger.cs) without its I/O: the threshold gate, the
  demotion to Silent after a failed write, the page header with its level
  colours, the rendering of lines and of exception chains with collapsible
  stack traces, and the crash-dump rendering. The file system is a map held
  by the sink; whether a write, a file creation or a cleanup pass fails is an
  input of each call.
*/
module HtmlSink {
  import opened Platform
  import opened Strings
  import opened Levels
  import opened Entries
  import opened Files
  import opened DumpPlan
  import opened Colors

  const MaxFilesCount: nat := 5
  const LogPrefix: string := "HTMLog_"
  const CrashPrefix: string := "Oops_"
  /** The extension of every file the sink creates. */
  const FileExt: string := ".html"
  /** The extension the source's Cleanup searches for. */
  const CleanupExtAsWritten: string := ".txt"

  /** The CSS class a level's lines are shown in. */
  function SpanType(l: LogLevel): (s: string)
    ensures l != Silent ==> |s| >= 4
  {
    match l
    case Debug => "debug"
    case Info => "info"
    case Warning => "warning"
    case Error => "error"
    case Silent => ""
  }

  /** The colour GsColor gives each level (GsColor.Debug, .Info, .Warning, .Error). */
  function LevelColor(l: LogLevel): GsColor
  {
    match l
    case Debug => DebugColor
    case Info => InfoColor
    case Warning => WarningColor
    case Error => ErrorColor
    case Silent => Black
  }

  /** One rule of the page's style sheet. */
  function StyleRule(cls: string, c: GsColor): string
  {
    "." + cls + "{color:#" + ToHexadecimal(c) + "}" + NewLine
  }

  function StyleSheet(): string
  {
    "<style type=" + "\"text/css\">" + NewLine
      + StyleRule("debug", DebugColor) + StyleRule("info", InfoColor)
      + StyleRule("warning", WarningColor) + StyleRule("error", ErrorColor)
      + StyleRule("stacktrace", Maroon) + "</style>"
  }

  /** The `displ` script that shows and hides a stack-trace block by its id. */
  function ToggleScript(): string
  {
    "<script type=" + "\"text/javascript\">" + NewLine
      + "function displ(ddd) {" + NewLine
      + "if (document." + "getElementById(ddd)" + ".style.display" + " == 'none')" + NewLine
      + "{document." + "getElementById(ddd)" + ".style.display" + " = 'block'}" + NewLine
      + "else {document." + "getElementById(ddd)" + ".style.display" + " = 'none'}" + NewLine
      + "}" + NewLine
      + "</script>" + NewLine
  }

  /** The head's first line, declaring the page's encoding. */
  function MetaLine(): string
  {
    "<head><meta " + "http-equiv=\"Content-Type\" " + "content=\"text/html; " + "charset=utf-8\">"
  }

  /** What CreateNewFile writes into a fresh file: each WriteLine ends in a line break. */
  function HtmlHeader(): string
  {
    HeadOpening() + StyleSheet() + HeadClosing()
  }

  /** The header's lines before the style sheet. */
  function HeadOpening(): string
  {
    "<html>" + NewLine + MetaLine() + NewLine
  }

  /** The header's lines after the style sheet: the script, the end of the head and the start of the body. */
  function HeadClosing(): string
  {
    NewLine + ToggleScript() + NewLine + "</head>" + NewLine + "<body>" + NewLine
  }

  /**
    Every class a level's lines use has a rule in the header's style sheet,
    coloured with that level's colour.
  */
  lemma SpanClassesAreStyled(l: LogLevel)
    requires l != Silent
    ensures Contains(StyleSheet(), StyleRule(SpanType(l), LevelColor(l)))
  {
    var open := "<style type=" + "\"text/css\">" + NewLine;
    var d, i, w, e, st := StyleRule("debug", DebugColor), StyleRule("info", InfoColor),
      StyleRule("warning", WarningColor), StyleRule("error", ErrorColor), StyleRule("stacktrace", Maroon);
    var rule := StyleRule(SpanType(l), LevelColor(l));
    ContainsItself(rule);
    match l {
      case Debug =>
        ContainsInRight(open, d, rule);
        ContainsInLeft(open + d, i, rule);
        ContainsInLeft(open + d + i, w, rule);
        ContainsInLeft(open + d + i + w, e, rule);
      case Info =>
        ContainsInRight(open + d, i, rule);
        ContainsInLeft(open + d + i, w, rule);
        ContainsInLeft(open + d + i + w, e, rule);
      case Warning =>
        ContainsInRight(open + d + i, w, rule);
        ContainsInLeft(open + d + i + w, e, rule);
      case Error =>
        ContainsInRight(open + d + i + w, e, rule);
    }
    ContainsInLeft(open + d + i + w + e, st, rule);
    ContainsInLeft(open + d + i + w + e + st, "</style>", rule);
  }

  /** The header carries the style sheet. */
  lemma HeaderHasStyleSheet()
    ensures Contains(HtmlHeader(), StyleSheet())
  {
    ContainsItself(StyleSheet());
    ContainsInRight(HeadOpening(), StyleSheet(), StyleSheet());
    ContainsInLeft(HeadOpening() + StyleSheet(), HeadClosing(), StyleSheet());
  }

  /** CreateNewFile's path: `prefix + date + " at " + time + ".html"` under `dir`, or the current directory when `dir` is empty. */
  function NewFilePath(prefix: string, dir: string, currentDir: string, now: Instant): (p: Path)
    ensures Matches(p, p.dir, prefix, FileExt)
    ensures p.dir == (if dir == "" then currentDir else dir)
  {
    Path(if dir == "" then currentDir else dir, prefix + now.date + " at " + now.time + FileExt)
  }

  /** HtmlLogLine: a paragraph holding the timestamp and a colon left-aligned in 30 columns, then the message in its span. */
  function HtmlLogLine(message: string, spanType: string, stamp: string): string
  {
    "<p> " + PadRight(stamp + ":", 30) + ("<span class=\"" + spanType + "\">" + message + "</span>") + "<br>" + NewLine
  }

  /**
    For a timestamp shorter than 30 characters the span starts in column 34;
    the message is copied into the page as it is, with no escaping.
  */
  lemma HtmlLogLineLayout(message: string, spanType: string, stamp: string)
    requires |stamp| < 30
    ensures var line := HtmlLogLine(message, spanType, stamp);
      |line| == 34 + |"<span class=\"" + spanType + "\">" + message + "</span><br>" + NewLine|
      && line[..4] == "<p> " && line[4..4 + |stamp|] == stamp && line[4 + |stamp|] == ':'
      && (forall i :: 5 + |stamp| <= i < 34 ==> line[i] == ' ')
      && line[34..] == "<span class=\"" + spanType + "\">" + message + "</span><br>" + NewLine
  {
    var pad := PadRight(stamp + ":", 30);
    var span := "<span class=\"" + spanType + "\">" + message + "</span>";
    var line := HtmlLogLine(message, spanType, stamp);
    assert line == "<p> " + pad + (span + "<br>" + NewLine);
    assert line[4..34] == pad;
    assert pad[..|stamp| + 1] == stamp + ":";
    assert span + "<br>" + NewLine == "<span class=\"" + spanType + "\">" + message + "</span><br>" + NewLine;
  }

  /**
    The collapsible stack-trace block of an exception: a link that shows the
    block `openId`, the hidden block itself, and inside it a Close link that
    toggles the block `closeId`.
  */
  function StackBlockWith(trace: string, openId: nat, closeId: nat): string
  {
    StackBlockHead(trace, openId) + Decimal(closeId) + StackBlockTail()
  }

  /** Everything of a stack-trace block before the Close link's target. */
  function StackBlockHead(trace: string, openId: nat): string
  {
    "<a href=" + "\"javascript: displ('" + Decimal(openId) + "')\">" + "Exception source..." + "</a><br>" + NewLine
      + "<div id=\"" + Decimal(openId) + "\" style=" + "\"display: none;\">" + NewLine
      + "<span class=" + "\"stacktrace\">" + trace + "</span>"
      + "<a href=" + "\"javascript: displ('"
  }

  function StackBlockTail(): string
  {
    "')\">Close</a>" + "</div>" + NewLine
  }

  /** The block as HTMLLogger.cs writes it: the counter is incremented before the Close link is written. */
  function StackBlockAsWritten(trace: string, id: nat): string
  {
    StackBlockWith(trace, id, id + 1)
  }

  /** The block with its Close link toggling the block it sits in. */
  function StackBlock(trace: string, id: nat): string
  {
    StackBlockWith(trace, id, id)
  }

  /** A block's text determines the block its Close link toggles. */
  lemma CloseTargetDetermined(trace: string, openId: nat, c1: nat, c2: nat)
    ensures StackBlockWith(trace, openId, c1) == StackBlockWith(trace, openId, c2) ==> c1 == c2
  {
    var head, tail := StackBlockHead(trace, openId), StackBlockTail();
    var s1, s2 := StackBlockWith(trace, openId, c1), StackBlockWith(trace, openId, c2);
    assert s1[|head|..|s1| - |tail|] == Decimal(c1);
    assert s2[|head|..|s2| - |tail|] == Decimal(c2);
    DecimalInjective(c1, c2);
  }

  /**
    As written, the Close link of every block toggles a different block than
    the one it sits in (the next exception's block, or none at all).
  */
  lemma CloseLinkMisdirected(trace: string, id: nat)
    ensures StackBlockAsWritten(trace, id) != StackBlockWith(trace, id, id)
  {
    CloseTargetDetermined(trace, id, id + 1, id);
  }

  /** The corrected block: its Close link toggles its own block and no other. */
  lemma CloseLinkTogglesOwnBlock(trace: string, id: nat, closeId: nat)
    ensures StackBlock(trace, id) == StackBlockWith(trace, id, closeId) <==> closeId == id
  {
    CloseTargetDetermined(trace, id, id, closeId);
  }

  /** Whether an exception's rendering carries a stack-trace block: `ex.StackTrace != ""`, which a null trace passes. */
  predicate HasStackBlock(ex: Exception)
  {
    ex.stackTrace != Some("")
  }

  /** The number of stack-trace blocks along an InnerException chain. */
  function StackCount(ex: Exception): nat
    decreases ex
  {
    (if HasStackBlock(ex) then 1 else 0) + match ex.inner { case None => 0 case Some(inner) => StackCount(inner) }
  }

  lemma {:induction false} StackCountBound(ex: Exception)
    ensures StackCount(ex) <= ChainLength(ex)
    ensures ex.stackTrace.None? ==> StackCount(ex) >= 1
    decreases ex
  {
    match ex.inner {
      case None =>
      case Some(inner) => StackCountBound(inner);
    }
  }

  /**
    HtmlLogException: the text of `ex` and of its inner exceptions, and the
    stack-block counter after it. The counter advances once per block.
  */
  function RenderException(ex: Exception, spanType: string, stamp: string, id: nat): (r: (string, nat))
    ensures r.1 == id + StackCount(ex)
    decreases ex
  {
    var head := "<p> " + (stamp + ":") + ("<span class=\"" + spanType + "\">") + (ex.kind + ":") + ex.message + "</span>";
    var withBlock := if HasStackBlock(ex) then head + StackBlock(TextOf(ex.stackTrace), id) else head;
    var id1: nat := if HasStackBlock(ex) then id + 1 else id;
    var withInner: (string, nat) :=
      match ex.inner
      case None => (withBlock, id1)
      case Some(inner) =>
        var (t, n) := RenderException(inner, spanType, stamp, id1);
        (withBlock + "<br>" + NewLine + "<span class=\"stacktrace\">" + TextOf(ex.stackTrace) + "</span>" + t, n);
    (withInner.0 + "<br>" + NewLine, withInner.1)
  }

  /**
    The ids of the stack-trace blocks RenderException writes for `ex` from
    counter `id`, in the order it writes them: the exception's own block
    first, then those of its inner exceptions.
  */
  function BlockIds(ex: Exception, id: nat): seq<nat>
    decreases ex
  {
    var own := if HasStackBlock(ex) then [id] else [];
    own + match ex.inner { case None => [] case Some(inner) => BlockIds(inner, id + |own|) }
  }

  /**
    The blocks of one chain get the ids id, id + 1, ..., one per block, so no
    two of them share an id, and the counter is left just past the last one.
  */
  lemma {:induction false} BlockIdsConsecutive(ex: Exception, spanType: string, stamp: string, id: nat)
    ensures |BlockIds(ex, id)| == StackCount(ex)
    ensures forall i :: 0 <= i < |BlockIds(ex, id)| ==> BlockIds(ex, id)[i] == id + i
    ensures forall i, j :: 0 <= i < j < |BlockIds(ex, id)| ==> BlockIds(ex, id)[i] != BlockIds(ex, id)[j]
    ensures RenderException(ex, spanType, stamp, id).1 == id + |BlockIds(ex, id)|
    decreases ex
  {
    var own: seq<nat> := if HasStackBlock(ex) then [id] else [];
    match ex.inner {
      case None =>
      case Some(inner) =>
        BlockIdsConsecutive(inner, spanType, stamp, id + |own|);
        var rest := BlockIds(inner, id + |own|);
        assert BlockIds(ex, id) == own + rest;
        forall i | 0 <= i < |own + rest|
          ensures (own + rest)[i] == id + i
        {
          if i >= |own| {
            assert (own + rest)[i] == rest[i - |own|];
          }
        }
    }
  }

  /** The tag that opens the stack-trace block with id `n`: `<div id="n" style=`. */
  function BlockOpening(n: nat): string
  {
    "<div id=\"" + Decimal(n) + "\" style="
  }

  /** A block holds the opening of its own id. */
  lemma StackBlockOpens(trace: string, n: nat)
    ensures Contains(StackBlock(trace, n), BlockOpening(n))
  {
    var o := BlockOpening(n);
    var link := "<a href=" + "\"javascript: displ('" + Decimal(n) + "')\">" + "Exception source..." + "</a><br>" + NewLine;
    ContainsTail(link, "<div id=\"", Decimal(n), "\" style=");
    var acc := link + "<div id=\"" + Decimal(n) + "\" style=";
    ContainsInLeft(acc, "\"display: none;\">", o);
    acc := acc + "\"display: none;\">";
    ContainsInLeft(acc, NewLine, o);
    acc := acc + NewLine;
    ContainsInLeft(acc, "<span class=", o);
    acc := acc + "<span class=";
    ContainsInLeft(acc, "\"stacktrace\">", o);
    acc := acc + "\"stacktrace\">";
    ContainsInLeft(acc, trace, o);
    acc := acc + trace;
    ContainsInLeft(acc, "</span>", o);
    acc := acc + "</span>";
    ContainsInLeft(acc, "<a href=", o);
    acc := acc + "<a href=";
    ContainsInLeft(acc, "\"javascript: displ('", o);
    acc := acc + "\"javascript: displ('";
    assert acc == StackBlockHead(trace, n);
    ContainsInLeft(acc, Decimal(n), o);
    acc := acc + Decimal(n);
    ContainsInLeft(acc, StackBlockTail(), o);
  }

  /** The rendering of an exception with a block holds that block, numbered from the counter it starts from. */
  lemma OwnBlockInText(ex: Exception, spanType: string, stamp: string, id: nat)
    requires HasStackBlock(ex)
    ensures Contains(RenderException(ex, spanType, stamp, id).0, StackBlock(TextOf(ex.stackTrace), id))
  {
    var b := StackBlock(TextOf(ex.stackTrace), id);
    var head := "<p> " + (stamp + ":") + ("<span class=\"" + spanType + "\">") + (ex.kind + ":") + ex.message + "</span>";
    ContainsItself(b);
    ContainsInRight(head, b, b);
    var acc := head + b;
    if ex.inner.Some? {
      ContainsInLeft(acc, "<br>", b);
      acc := acc + "<br>";
      ContainsInLeft(acc, NewLine, b);
      acc := acc + NewLine;
      ContainsInLeft(acc, "<span class=\"stacktrace\">", b);
      acc := acc + "<span class=\"stacktrace\">";
      ContainsInLeft(acc, TextOf(ex.stackTrace), b);
      acc := acc + TextOf(ex.stackTrace);
      ContainsInLeft(acc, "</span>", b);
      acc := acc + "</span>";
      var t := RenderException(ex.inner.value, spanType, stamp, id + 1).0;
      ContainsInLeft(acc, t, b);
      acc := acc + t;
    }
    ContainsInLeft(acc, "<br>", b);
    acc := acc + "<br>";
    ContainsInLeft(acc, NewLine, b);
    acc := acc + NewLine;
    assert acc == RenderException(ex, spanType, stamp, id).0;
  }

  /** The rendering of an exception holds that of its inner exception, numbered on from its own block. */
  lemma InnerTextInText(ex: Exception, spanType: string, stamp: string, id: nat)
    requires ex.inner.Some?
    ensures Contains(RenderException(ex, spanType, stamp, id).0,
                     RenderException(ex.inner.value, spanType, stamp, if HasStackBlock(ex) then id + 1 else id).0)
  {
    var id1: nat := if HasStackBlock(ex) then id + 1 else id;
    var t := RenderException(ex.inner.value, spanType, stamp, id1).0;
    var head := "<p> " + (stamp + ":") + ("<span class=\"" + spanType + "\">") + (ex.kind + ":") + ex.message + "</span>";
    var withBlock := if HasStackBlock(ex) then head + StackBlock(TextOf(ex.stackTrace), id) else head;
    var acc := withBlock + "<br>" + NewLine + "<span class=\"stacktrace\">" + TextOf(ex.stackTrace) + "</span>";
    ContainsItself(t);
    ContainsInRight(acc, t, t);
    acc := acc + t;
    ContainsInLeft(acc, "<br>", t);
    acc := acc + "<br>";
    ContainsInLeft(acc, NewLine, t);
    acc := acc + NewLine;
    assert acc == RenderException(ex, spanType, stamp, id).0;
  }

  /**
    The rendered text of a chain really holds its blocks: every block id
    from `id` up to, not including, `id + StackCount(ex)` is opened in it.
  */
  lemma {:induction false} RenderedBlocksOpen(ex: Exception, spanType: string, stamp: string, id: nat)
    ensures forall n: nat :: id <= n < id + StackCount(ex) ==> Contains(RenderException(ex, spanType, stamp, id).0, BlockOpening(n))
    decreases ex
  {
    var id1: nat := if HasStackBlock(ex) then id + 1 else id;
    var r := RenderException(ex, spanType, stamp, id).0;
    forall n: nat | id <= n < id + StackCount(ex)
      ensures Contains(r, BlockOpening(n))
    {
      if HasStackBlock(ex) && n == id {
        OwnBlockInText(ex, spanType, stamp, id);
        StackBlockOpens(TextOf(ex.stackTrace), id);
        ContainsTransitive(r, StackBlock(TextOf(ex.stackTrace), id), BlockOpening(n));
      } else {
        RenderedBlocksOpen(ex.inner.value, spanType, stamp, id1);
        InnerTextInText(ex, spanType, stamp, id);
        ContainsTransitive(r, RenderException(ex.inner.value, spanType, stamp, id1).0, BlockOpening(n));
      }
    }
  }

  /** One crash-dump line with the counter threaded through. */
  function RenderItem(item: DumpItem, stamp: string, id: nat): (string, nat)
  {
    match item
    case MessageItem(level, text) => (HtmlLogLine(text, SpanType(level), stamp), id)
    case ExceptionItem(level, ex) => RenderException(ex, SpanType(level), stamp, id)
  }

  /** The lines of a dump, in order, each exception taking the next stack-block ids. */
  function RenderItems(items: seq<DumpItem>, stamp: string, id: nat): (string, nat)
  {
    ThreadMap(items, (item: DumpItem, n: nat) => RenderItem(item, stamp, n), id)
  }

  lemma RenderItemsAppend(a: seq<DumpItem>, b: seq<DumpItem>, stamp: string, id: nat)
    ensures var ra := RenderItems(a, stamp, id);
      var rb := RenderItems(b, stamp, ra.1);
      RenderItems(a + b, stamp, id) == (ra.0 + rb.0, rb.1)
  {
    ThreadMapAppend(a, b, (item: DumpItem, n: nat) => RenderItem(item, stamp, n), id);
  }

  /** The stack-trace blocks of a dump's exceptions. */
  function StackCountItems(items: seq<DumpItem>): nat
  {
    if items == [] then 0
    else
      var last := match items[|items| - 1] { case MessageItem(_, _) => 0 case ExceptionItem(_, ex) => StackCount(ex) };
      StackCountItems(items[..|items| - 1]) + last
  }

  /** A dump advances the counter by exactly the number of blocks it prints. */
  lemma {:induction false} RenderItemsIds(items: seq<DumpItem>, stamp: string, id: nat)
    ensures RenderItems(items, stamp, id).1 == id + StackCountItems(items)
  {
    if items != [] {
      RenderItemsIds(items[..|items| - 1], stamp, id);
    }
  }

  /** The per-level lines of one entry, as the `switch (entry.Level)` appends them. */
  lemma RenderPlan(e: LogEntry, stamp: string, id: nat)
    ensures e.level == Silent ==> RenderItems(Plan(e), stamp, id) == ("", id)
    ensures e.level == Debug || e.level == Info ==>
      RenderItems(Plan(e), stamp, id) == (HtmlLogLine(TextOf(e.entry), SpanType(e.level), stamp), id)
    ensures e.level == Warning || e.level == Error ==>
      var m := if IsNullOrEmpty(e.entry) then "" else HtmlLogLine(e.entry.value, SpanType(e.level), stamp);
      var x := if e.exception.Some? then RenderException(e.exception.value, SpanType(e.level), stamp, id) else ("", id);
      RenderItems(Plan(e), stamp, id) == (m + x.0, x.1)
  {
    var f := (item: DumpItem, n: nat) => RenderItem(item, stamp, n);
    PlanByLevel(e);
    match e.level {
      case Silent =>
      case Debug =>
        ThreadMapSingle(MessageItem(Debug, TextOf(e.entry)), f, id);
      case Info =>
        ThreadMapSingle(MessageItem(Info, TextOf(e.entry)), f, id);
      case _ =>
        var m := if IsNullOrEmpty(e.entry) then [] else [MessageItem(e.level, e.entry.value)];
        var x := if e.exception.Some? then [ExceptionItem(e.level, e.exception.value)] else [];
        assert Plan(e) == m + x;
        ThreadMapAppend(m, x, f, id);
        var rm := ThreadMap(m, f, id);
        if m != [] {
          ThreadMapSingle(m[0], f, id);
        }
        assert rm.1 == id;
        if x != [] {
          ThreadMapSingle(x[0], f, id);
        } else {
          assert rm.0 + "" == rm.0;
        }
    }
  }

  /** The text of a whole crash dump after the header CreateNewFile wrote, and the counter after it. */
  function CrashDumpText(sender: string, version: string, entries: seq<LogEntry>, stamp: string, id: nat): (string, nat)
  {
    var body := RenderItems(PlanAll(entries), stamp, id);
    (HtmlLogLine(sender + " ver. " + version + " CRASH DUMP", "info", stamp) + body.0 + "</body>" + "</html>", body.1)
  }

  /**
    The lines of the entries `a + b` are those of `a` followed by those of
    `b`, whose blocks are numbered on from where `a`'s stopped.
  */
  lemma CrashDumpInOrder(a: seq<LogEntry>, b: seq<LogEntry>, stamp: string, id: nat)
    ensures var ra := RenderItems(PlanAll(a), stamp, id);
      var rb := RenderItems(PlanAll(b), stamp, ra.1);
      RenderItems(PlanAll(a + b), stamp, id) == (ra.0 + rb.0, rb.1)
  {
    PlanAllAppend(a, b);
    RenderItemsAppend(PlanAll(a), PlanAll(b), stamp, id);
  }

  lemma RenderStep(entries: seq<LogEntry>, i: nat, stamp: string, id: nat)
    requires i < |entries|
    ensures var prev := RenderItems(PlanAll(entries[..i]), stamp, id);
      var step := RenderItems(Plan(entries[i]), stamp, prev.1);
      RenderItems(PlanAll(entries[..i + 1]), stamp, id) == (prev.0 + step.0, step.1)
  {
    assert entries[..i + 1][..i] == entries[..i];
    assert PlanAll(entries[..i + 1]) == PlanAll(entries[..i]) + Plan(entries[i]);
    RenderItemsAppend(PlanAll(entries[..i]), Plan(entries[i]), stamp, id);
  }

  /** The disk after a Cleanup pass in `dir` that fails or not; the pass searches for the extension the sink writes. */
  ghost predicate Swept(before: Disk, after: Disk, dir: string, fails: bool)
  {
    if fails then after == before else CleanedUp(before, after, dir, LogPrefix, CrashPrefix, FileExt, MaxFilesCount)
  }

  /** The disk after CreateNewFile: `header` overwrites the file, unless creating it fails. */
  function Created(disk: Disk, path: Path, header: string, ticks: int, fails: bool): Disk
  {
    if fails then disk else Overwrite(disk, path, header, ticks)
  }

  /**
    As written, Cleanup lists `HTMLog_*.txt` and `Oops_*.txt`: a pass never
    deletes an HTML file, so the sink's own files are never limited to five.
  */
  lemma CleanupAsWrittenSparesHtml(before: Disk, after: Disk, dir: string)
    requires CleanedUp(before, after, dir, LogPrefix, CrashPrefix, CleanupExtAsWritten, MaxFilesCount)
    ensures forall p :: p in before && Matches(p, dir, LogPrefix, FileExt) ==> p in after
    ensures forall p :: p in before && Matches(p, dir, CrashPrefix, FileExt) ==> p in after
    ensures Matching(after, dir, LogPrefix, FileExt) == Matching(before, dir, LogPrefix, FileExt)
  {
    CleanupBounds(before, after, dir, LogPrefix, CrashPrefix, CleanupExtAsWritten, MaxFilesCount);
    forall p | p in before && Matches(p, dir, LogPrefix, FileExt)
      ensures p in after
    {
      HtmlNotListedAsWritten(p, dir, LogPrefix);
    }
    forall p | p in before && Matches(p, dir, CrashPrefix, FileExt)
      ensures p in after
    {
      HtmlNotListedAsWritten(p, dir, CrashPrefix);
    }
  }

  /** An `.html` file matches neither `HTMLog_*.txt` nor `Oops_*.txt`. */
  lemma HtmlNotListedAsWritten(p: Path, dir: string, prefix: string)
    requires Matches(p, dir, prefix, FileExt)
    ensures !Matches(p, dir, LogPrefix, CleanupExtAsWritten) && !Matches(p, dir, CrashPrefix, CleanupExtAsWritten)
  {
    HtmlIsNotTxt(p.name);
  }

  lemma HtmlIsNotTxt(name: string)
    requires |name| >= 5 && name[|name| - 5..] == ".html"
    ensures !(|name| >= 4 && name[|name| - 4..] == ".txt")
  {
    assert name[|name| - 4] == name[|name| - 5..][1] == 'h';
  }

  /**
    `new HtmlLogger(directory)`: the sink whose new files start with the
    page header HtmlHeader().
  */
  method NewHtmlLogger(directory: string, currentDir: string, disk: Disk, now: Instant, cleanupFails: bool, createFails: bool)
    returns (l: HtmlLogger)
    ensures fresh(l)
    ensures l.workDir == directory && l.currentDir == currentDir && l.header == HtmlHeader()
    ensures l.workFilePath == NewFilePath(LogPrefix, directory, currentDir, now)
    ensures l.logLevel == (if cleanupFails || createFails then Silent else Info)
    ensures l.errorStackId == 0 && !l.duplicateToConsole && l.console == []
    ensures exists cleaned ::
      Swept(disk, cleaned, currentDir, cleanupFails) && l.disk == Created(cleaned, l.workFilePath, l.header, now.ticks, createFails)
  {
    l := new HtmlLogger(directory, currentDir, disk, now, HtmlHeader(), cleanupFails, createFails);
  }

  class HtmlLogger {
    var logLevel: LogLevel
    var duplicateToConsole: bool
    const workDir: string
    /** Directory.GetCurrentDirectory(): where Cleanup looks, and where paths go when `workDir` is empty. */
    const currentDir: string
    const workFilePath: Path
    /** The text CreateNewFile writes at the top of every new file: HtmlHeader(). */
    const header: string
    /** _errorStackId: the id the next stack-trace block gets. */
    var errorStackId: nat
    var disk: Disk
    /** Lines mirrored to the console. */
    ghost var console: seq<string>

    /**
      The constructor, given the page header it writes into every new file:
      a Cleanup pass, then the work file, named from the clock at `now`.
      The threshold starts at Info; either failure silences the sink.
      `NewHtmlLogger` passes HtmlHeader().
    */
    constructor (directory: string, currentDir: string, disk: Disk, now: Instant, header: string, cleanupFails: bool, createFails: bool)
      ensures workDir == directory && this.currentDir == currentDir && this.header == header
      ensures workFilePath == NewFilePath(LogPrefix, directory, currentDir, now)
      ensures logLevel == (if cleanupFails || createFails then Silent else Info)
      ensures errorStackId == 0 && !duplicateToConsole && console == []
      ensures exists cleaned ::
        Swept(disk, cleaned, currentDir, cleanupFails) && this.disk == Created(cleaned, workFilePath, header, now.ticks, createFails)
    {
      logLevel := Info;
      duplicateToConsole := false;
      workDir := directory;
      this.currentDir := currentDir;
      workFilePath := NewFilePath(LogPrefix, directory, currentDir, now);
      this.header := header;
      errorStackId := 0;
      this.disk := disk;
      console := [];
      new;
      Cleanup(cleanupFails);
      ghost var cleaned := this.disk;
      assert Swept(disk, cleaned, currentDir, cleanupFails);
      var path := CreateNewFile(LogPrefix, now, createFails);
    }

    /** The LogLevel setter. */
    method SetLogLevel(level: LogLevel)
      modifies this`logLevel
      ensures logLevel == level
    {
      logLevel := level;
    }

    /** The DuplicateToConsole setter. */
    method SetDuplicateToConsole(value: bool)
      modifies this`duplicateToConsole
      ensures duplicateToConsole == value
    {
      duplicateToConsole := value;
    }

    /** CreateNewFile: the path of a new file holding the page header; a failure silences the sink. */
    method CreateNewFile(prefix: string, now: Instant, fails: bool) returns (path: Path)
      modifies this`disk, this`logLevel
      ensures path == NewFilePath(prefix, workDir, currentDir, now)
      ensures disk == Created(old(disk), path, header, now.ticks, fails)
      ensures logLevel == if fails then Silent else old(logLevel)
    {
      path := NewFilePath(prefix, workDir, currentDir, now);
      if fails {
        logLevel := Silent;
      }
      disk := Created(disk, path, header, now.ticks, fails);
    }

    /**
      Cleanup: keep the five newest files of each prefix in the current
      directory; any failure silences the sink. This searches for the
      extension the sink writes, `.html`.
    */
    method Cleanup(fails: bool)
      modifies this`disk, this`logLevel
      ensures logLevel == if fails then Silent else old(logLevel)
      ensures Swept(old(disk), disk, currentDir, fails)
    {
      if fails {
        logLevel := Silent;
      } else {
        disk := Files.Cleanup(disk, currentDir, LogPrefix, CrashPrefix, FileExt, MaxFilesCount);
      }
    }

    method WriteToConsole(ms: string)
      modifies this`console
      ensures console == old(console) + if duplicateToConsole then [ms] else []
    {
      if duplicateToConsole {
        console := console + [ms];
      }
    }

    /** WriteToFile(message, path): append; a failure silences the sink and leaves the disk as it was. */
    method AppendToFile(message: string, path: Path, now: Instant, fails: bool)
      modifies this`disk, this`logLevel
      ensures fails ==> disk == old(disk) && logLevel == Silent
      ensures !fails ==> disk == Append(old(disk), path, message, now.ticks) && logLevel == old(logLevel)
    {
      if fails {
        logLevel := Silent;
      } else {
        disk := Append(disk, path, message, now.ticks);
      }
    }

    /**
      HtmlLogException: render `ex` and its inner exceptions, taking a fresh
      stack-block id for every block it writes.
    */
    method HtmlLogException(ex: Exception, spanType: string, stamp: string) returns (r: string)
      modifies this`errorStackId
      ensures (r, errorStackId) == RenderException(ex, spanType, stamp, old(errorStackId))
      decreases ex
    {
      r := "<p> ";
      r := r + (stamp + ":");
      r := r + ("<span class=\"" + spanType + "\">");
      r := r + (ex.kind + ":");
      r := r + ex.message;
      r := r + "</span>";
      if HasStackBlock(ex) {
        r := r + StackBlock(TextOf(ex.stackTrace), errorStackId);
        errorStackId := errorStackId + 1;
      }
      if ex.inner.Some? {
        r := r + "<br>";
        r := r + NewLine;
        r := r + "<span class=\"stacktrace\">";
        r := r + TextOf(ex.stackTrace);
        r := r + "</span>";
        var t := HtmlLogException(ex.inner.value, spanType, stamp);
        r := r + t;
      }
      r := r + "<br>";
      r := r + NewLine;
    }

    /** The new state of a LogX call that passed the threshold test: `line` went to the work file, `shown` to the console. */
    twostate predicate Logged(line: string, shown: string, now: Instant, fails: bool)
      reads this
    {
      && disk == (if fails then old(disk) else Append(old(disk), workFilePath, line, now.ticks))
      && logLevel == (if fails then Silent else old(logLevel))
      && console == old(console) + (if duplicateToConsole then [shown] else [])
      && duplicateToConsole == old(duplicateToConsole)
    }

    method Emit(line: string, shown: string, now: Instant, fails: bool)
      modifies this`disk, this`logLevel, this`console
      ensures Logged(line, shown, now, fails)
    {
      AppendToFile(line, workFilePath, now, fails);
      WriteToConsole(shown);
    }

    method LogDebug(message: string, now: Instant, fails: bool)
      modifies this
      ensures !Admits(old(logLevel), Debug) ==> unchanged(this)
      ensures Admits(old(logLevel), Debug) ==>
        Logged(HtmlLogLine(message, "debug", now.general), message, now, fails) && errorStackId == old(errorStackId)
    {
      if Admits(logLevel, Debug) {
        Emit(HtmlLogLine(message, "debug", now.general), message, now, fails);
      }
    }

    method LogInfo(message: string, now: Instant, fails: bool)
      modifies this
      ensures !Admits(old(logLevel), Info) ==> unchanged(this)
      ensures Admits(old(logLevel), Info) ==>
        Logged(HtmlLogLine(message, "info", now.general), message, now, fails) && errorStackId == old(errorStackId)
    {
      if Admits(logLevel, Info) {
        Emit(HtmlLogLine(message, "info", now.general), message, now, fails);
      }
    }

    /** LogWarning(Exception ex): the rendered chain goes to the file, ex.ToString() to the console. */
    method LogWarningException(ex: Exception, now: Instant, fails: bool)
      modifies this
      ensures !Admits(old(logLevel), Warning) ==> unchanged(this)
      ensures Admits(old(logLevel), Warning) ==>
        var r := RenderException(ex, "warning", now.general, old(errorStackId));
        Logged(r.0, ex.text, now, fails) && errorStackId == r.1
    {
      if Admits(logLevel, Warning) {
        var text := HtmlLogException(ex, "warning", now.general);
        Emit(text, ex.text, now, fails);
      }
    }

    method LogWarning(message: string, now: Instant, fails: bool)
      modifies this
      ensures !Admits(old(logLevel), Warning) ==> unchanged(this)
      ensures Admits(old(logLevel), Warning) ==>
        Logged(HtmlLogLine(message, "warning", now.general), message, now, fails) && errorStackId == old(errorStackId)
    {
      if Admits(logLevel, Warning) {
        Emit(HtmlLogLine(message, "warning", now.general), message, now, fails);
      }
    }

    /** LogError(Exception ex): the rendered chain goes to the file, only ex.Message to the console. */
    method LogErrorException(ex: Exception, now: Instant, fails: bool)
      modifies this
      ensures !Admits(old(logLevel), Error) ==> unchanged(this)
      ensures Admits(old(logLevel), Error) ==>
        var r := RenderException(ex, "error", now.general, old(errorStackId));
        Logged(r.0, ex.message, now, fails) && errorStackId == r.1
    {
      if Admits(logLevel, Error) {
        var text := HtmlLogException(ex, "error", now.general);
        Emit(text, ex.message, now, fails);
      }
    }

    method LogError(message: string, now: Instant, fails: bool)
      modifies this
      ensures !Admits(old(logLevel), Error) ==> unchanged(this)
      ensures Admits(old(logLevel), Error) ==>
        Logged(HtmlLogLine(message, "error", now.general), message, now, fails) && errorStackId == old(errorStackId)
    {
      if Admits(logLevel, Error) {
        Emit(HtmlLogLine(message, "error", now.general), message, now, fails);
      }
    }

    /**
      A failed write silences the sink for good: the write leaves the disk as
      it was and the sink Silent, and every leveled call after it (here one of
      each, with their own clock reading and failure flag) changes nothing.
    */
    method FailedWriteSilencesForGood(line: string, now: Instant,
                                      message: string, ex: Exception, later: Instant, laterFails: bool)
      modifies this
      ensures logLevel == Silent && disk == old(disk)
      ensures console == old(console) && errorStackId == old(errorStackId)
      ensures duplicateToConsole == old(duplicateToConsole)
    {
      AppendToFile(line, workFilePath, now, true);
      assert logLevel == Silent;
      assert !Admits(Silent, Debug) && !Admits(Silent, Info) && !Admits(Silent, Warning) && !Admits(Silent, Error);
      LogDebug(message, later, laterFails);
      LogInfo(message, later, laterFails);
      LogWarningException(ex, later, laterFails);
      LogWarning(message, later, laterFails);
      LogErrorException(ex, later, laterFails);
      LogError(message, later, laterFails);
    }

    /** One pass of the crash-dump loop: the lines of one entry. */
    method EntryLines(entry: LogEntry, stamp: string) returns (lines: string)
      modifies this`errorStackId
      ensures (lines, errorStackId) == RenderItems(Plan(entry), stamp, old(errorStackId))
    {
      RenderPlan(entry, stamp, errorStackId);
      var span := SpanType(entry.level);
      lines := "";
      match entry.level {
        case Debug =>
          lines := HtmlLogLine(TextOf(entry.entry), "debug", stamp);
        case Info =>
          lines := HtmlLogLine(TextOf(entry.entry), "info", stamp);
        case Silent =>
        case _ =>
          if !IsNullOrEmpty(entry.entry) {
            lines := HtmlLogLine(entry.entry.value, span, stamp);
          }
          if entry.exception.Some? {
            var t := HtmlLogException(entry.exception.value, span, stamp);
            lines := lines + t;
          } else {
            assert lines + "" == lines;
          }
      }
    }

    /** The loop of LogCrashDump over the snapshot: every entry's lines, entry after entry. */
    method RenderEntries(entries: seq<LogEntry>, stamp: string) returns (body: string)
      modifies this`errorStackId
      ensures (body, errorStackId) == RenderItems(PlanAll(entries), stamp, old(errorStackId))
    {
      body := "";
      for i := 0 to |entries|
        invariant (body, errorStackId) == RenderItems(PlanAll(entries[..i]), stamp, old(errorStackId))
      {
        var lines := EntryLines(entries[i], stamp);
        RenderStep(entries, i, stamp, old(errorStackId));
        body := body + lines;
      }
      assert entries[..|entries|] == entries;
    }

    /**
      LogCrashDump: a new crash file with the page header, then the dump
      appended to it. It is not gated by the threshold; a failed creation or
      write silences the sink, and the dump is written even after a failed
      creation.
    */
    method LogCrashDump(sender: string, version: string, entries: seq<LogEntry>, now: Instant,
                        createFails: bool, writeFails: bool)
      modifies this`disk, this`logLevel, this`errorStackId
      ensures var path := NewFilePath(CrashPrefix, workDir, currentDir, now);
        var created := Created(old(disk), path, header, now.ticks, createFails);
        var dump := CrashDumpText(sender, version, entries, now.general, old(errorStackId));
        && errorStackId == dump.1
        && disk == (if writeFails then created else Append(created, path, dump.0, now.ticks))
        && logLevel == (if createFails || writeFails then Silent else old(logLevel))
    {
      var path := CreateNewFile(CrashPrefix, now, createFails);
      var dump := HtmlLogLine(sender + " ver. " + version + " CRASH DUMP", "info", now.general);
      var body := RenderEntries(entries, now.general);
      dump := dump + body;
      dump := dump + "</body>";
      dump := dump + "</html>";
      assert (dump, errorStackId) == CrashDumpText(sender, version, entries, now.general, old(errorStackId));
      AppendToFile(dump, path, now, writeFails);
    }
  }
}
