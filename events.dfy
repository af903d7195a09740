/**
 * The editor-event listeners of `addEventListeners()`: each file event is turned into at most
 * one heartbeat, built with the builder and appended to the queue. The event bus is left out;
 * the handlers are methods called with the event, and the clock reading is a parameter.
 */
module Events {
  import opened Wrappers
  import opened Numbers
  import opened Heartbeats
  import opened Queues

  predicate IsLineTerminator(c: char) {
    c == '\n' || c == '\r'
  }

  /** The text after the first line of `s` and its terminator ("\n", "\r" or "\r\n"). */
  function SkipLine(s: string): (r: string)
    requires s != []
    ensures |r| < |s|
  {
    if s[0] == '\n' then s[1..]
    else if s[0] == '\r' then (if |s| > 1 && s[1] == '\n' then s[2..] else s[1..])
    else if |s| == 1 then []
    else SkipLine(s[1..])
  }

  /** `s.lines().count()`: the lines of `s`, read one after another; none only for the empty string. */
  function LineCount(s: string): (n: nat)
    ensures n <= |s|
    ensures n == 0 <==> s == []
    decreases |s|
  {
    if s == [] then 0 else 1 + LineCount(SkipLine(s))
  }

  /** The line breaks of `s`, a "\r\n" pair counting once. */
  function Breaks(s: string): nat
    decreases |s|
  {
    if s == [] then 0
    else (if s[0] == '\n' || (s[0] == '\r' && !(|s| > 1 && s[1] == '\n')) then 1 else 0) + Breaks(s[1..])
  }

  /** 1 when `s` ends with a line that has no terminator, else 0. */
  function OpenLine(s: string): nat {
    if s != [] && !IsLineTerminator(s[|s| - 1]) then 1 else 0
  }

  lemma {:induction false} SkipLineBreaks(s: string)
    requires s != []
    ensures Breaks(s) + OpenLine(s) == 1 + Breaks(SkipLine(s)) + OpenLine(SkipLine(s))
    decreases |s|
  {
    if s[0] == '\r' && |s| > 1 && s[1] == '\n' {
      assert s[1..][1..] == s[2..];
      if |s| > 2 {
        assert s[2..][|s[2..]| - 1] == s[|s| - 1];
      }
    } else if IsLineTerminator(s[0]) {
      if |s| > 1 {
        assert s[1..][|s[1..]| - 1] == s[|s| - 1];
      }
    } else if |s| > 1 {
      SkipLineBreaks(s[1..]);
      assert s[1..][|s[1..]| - 1] == s[|s| - 1];
    }
  }

  /**
   * The number of lines is the number of line breaks, plus one for a last line without a
   * terminator: a trailing terminator does not start a new, empty line.
   */
  lemma {:induction false} LineCountBreaks(s: string)
    ensures LineCount(s) == Breaks(s) + OpenLine(s)
    decreases |s|
  {
    if s != [] {
      SkipLineBreaks(s);
      LineCountBreaks(SkipLine(s));
    }
  }

  /** A line without terminator, then a terminator, counts as one line before the rest. */
  lemma {:induction false} LineThenRest(line: string, terminator: string, rest: string)
    requires forall i :: 0 <= i < |line| ==> !IsLineTerminator(line[i])
    requires terminator == "\n" || terminator == "\r\n" || (terminator == "\r" && (rest == [] || rest[0] != '\n'))
    ensures LineCount(line + terminator + rest) == 1 + LineCount(rest)
    decreases |line|
  {
    var s := line + terminator + rest;
    if line == [] {
      assert s == terminator + rest;
      if terminator == "\r\n" {
        assert s[2..] == rest;
      } else {
        assert s[1..] == rest;
      }
    } else {
      assert s[1..] == line[1..] + terminator + rest;
      assert s[0] == line[0];
      LineThenRest(line[1..], terminator, rest);
      assert SkipLine(s) == SkipLine(s[1..]);
    }
  }

  /** Adding a terminator after a last unterminated line does not change the count. */
  lemma TrailingTerminator(s: string, terminator: string)
    requires s != [] && !IsLineTerminator(s[|s| - 1])
    requires terminator == "\n" || terminator == "\r\n" || terminator == "\r"
    ensures LineCount(s + terminator) == LineCount(s)
  {
    LineCountBreaks(s);
    LineCountBreaks(s + terminator);
    BreaksAppend(s, terminator);
    var t := s + terminator;
    assert t[|t| - 1] == terminator[|terminator| - 1];
  }

  lemma {:induction false} BreaksAppend(s: string, terminator: string)
    requires s != [] && !IsLineTerminator(s[|s| - 1])
    requires terminator == "\n" || terminator == "\r\n" || terminator == "\r"
    ensures Breaks(s + terminator) == Breaks(s) + 1
    decreases |s|
  {
    var t := s + terminator;
    assert t[1..] == s[1..] + terminator;
    if |s| == 1 {
      assert s[1..] == [];
      assert t[1..] == terminator;
      if terminator == "\r\n" {
        assert terminator[1..] == "\n";
        assert Breaks("\n") == 1;
      }
    } else {
      assert s[1..][|s[1..]| - 1] == s[|s| - 1];
      BreaksAppend(s[1..], terminator);
      assert t[0] == s[0] && t[1] == s[1];
    }
  }

  lemma LineCountExamples()
    ensures LineCount("") == 0
    ensures LineCount("a\nb") == 2
    ensures LineCount("a\r\nb\r\n") == 2
    ensures LineCount("\n\n") == 2
  {
    assert SkipLine("a\nb") == "b";
    assert SkipLine("a\r\nb\r\n") == "b\r\n";
    assert SkipLine("b\r\n") == [];
  }

  /** The open document of an event: its path, as text, and its contents. */
  datatype Document = Document(path: string, content: string)

  /** The two kinds of event the plugin subscribes to. */
  datatype EditorEvent =
    | FileEvent(activated: bool, saved: bool, file: Document)
    | FileModified(file: Document)

  /**
   * The heartbeat every listener builds for `doc`: entity, line count (narrowed to `int`),
   * timestamp, write set, the given unsaved flag, not building; the other four fields stay
   * `null`.
   */
  function FileHeartbeat(doc: Document, now: Decimal4, unsaved: bool): (h: Heartbeat)
    ensures h.entity == Some(doc.path) && h.timestamp == Some(now)
    ensures h.lineCount.Some? && (h.lineCount.value - LineCount(doc.content)) % TwoTo32 == 0
    ensures LineCount(doc.content) < TwoTo31 ==> h.lineCount == Some(LineCount(doc.content))
    ensures h.isWrite == Some(true) && h.isBuilding == Some(false) && h.isUnsavedFile == Some(unsaved)
    ensures h.lineNumber.None? && h.cursorPosition.None? && h.project.None? && h.language.None?
  {
    var n := LineCount(doc.content);
    var count := ToInt32(n);
    assert n < TwoTo31 ==> count == n by {
      if n < TwoTo31 { ToInt32Identity(n); }
    }
    Heartbeat(Some(doc.path), Some(count), None, None, Some(now),
              Some(true), Some(unsaved), None, None, Some(false))
  }

  /**
   * What the listeners enqueue for an event: activation wins over saving; an activation has
   * the unsaved flag false, a save (of a file not being activated) has it true, and a
   * modification has it false; a file event that is neither adds nothing.
   */
  function EventHeartbeat(ev: EditorEvent, now: Decimal4): (r: Option<Heartbeat>)
    ensures r.None? <==> ev.FileEvent? && !ev.activated && !ev.saved
    ensures r.Some? ==> r.value == FileHeartbeat(ev.file, now, ev.FileEvent? && !ev.activated)
  {
    match ev
    case FileEvent(activated, saved, file) =>
      if activated then Some(FileHeartbeat(file, now, false))
      else if saved then Some(FileHeartbeat(file, now, true))
      else None
    case FileModified(file) => Some(FileHeartbeat(file, now, false))
  }

  /** The builder chain of the listeners. */
  method NewHeartbeat(doc: Document, now: Decimal4, unsaved: bool) returns (h: Heartbeat)
    ensures h == FileHeartbeat(doc, now, unsaved)
  {
    var b := new Builder();
    b := b.SetEntity(Some(doc.path));
    b := b.SetLineCount(Some(ToInt32(LineCount(doc.content))));
    b := b.SetTimestamp(Some(now));
    b := b.SetWrite(Some(true));
    b := b.SetUnsavedFile(Some(unsaved));
    b := b.SetBuilding(Some(false));
    h := b.Build();
  }

  /** The `FileEvent` listener. */
  method OnFileEvent(queue: HeartbeatQueue, activated: bool, saved: bool, file: Document, nowMillis: nat)
    modifies queue
    ensures var ev := FileEvent(activated, saved, file);
      var r := EventHeartbeat(ev, TimestampOfMillis(nowMillis));
      queue.items == old(queue.items) + (if r.Some? then [r.value] else [])
  {
    if activated {
      var h := NewHeartbeat(file, TimestampOfMillis(nowMillis), false);
      queue.Add(h);
    } else if saved {
      var h := NewHeartbeat(file, TimestampOfMillis(nowMillis), true);
      queue.Add(h);
    }
  }

  /** The `FileModifiedEvent` listener. */
  method OnFileModified(queue: HeartbeatQueue, file: Document, nowMillis: nat)
    modifies queue
    ensures queue.items == old(queue.items) + [EventHeartbeat(FileModified(file), TimestampOfMillis(nowMillis)).value]
  {
    var h := NewHeartbeat(file, TimestampOfMillis(nowMillis), false);
    queue.Add(h);
  }
}
