/** `LogBuffer` of the runner's window: log lines are buffered and written
    to the log widget's document in batches, and the document is kept near
    a line limit by dropping its oldest line after each batch.

    The document is its list of blocks (lines); an empty document is one
    empty block. A timer also calls `flush` every 100 ms; here `Flush` is
    simply callable at any time. */
module LogView {
  import opened Strings

  /** `append` flushes once the buffer holds more than this many lines. */
  const FlushThreshold: nat := 20
  const DefaultMaxLines: int := 1000

  /** `appendPlainText(text)`: the text's lines become new blocks at the
      end; on an empty document they replace its one empty block. */
  function Appended(lines: seq<string>, text: string): (r: seq<string>)
    ensures |r| >= 1
  {
    if lines == [""] then Split(text, '\n') else lines + Split(text, '\n')
  }

  /** Above the limit, the first block and the separator after it are
      removed; a lone block is only emptied. */
  function Trimmed(lines: seq<string>, maxLines: int): (r: seq<string>)
    requires |lines| >= 1
    ensures |r| >= 1
  {
    if |lines| > maxLines then (if |lines| >= 2 then lines[1..] else [""]) else lines
  }

  /** The document after flushing `buffer`: unchanged when the buffer is
      empty, else the buffer joined by newlines appended, then trimmed. */
  function Flushed(lines: seq<string>, buffer: seq<string>, maxLines: int): (r: seq<string>)
    requires |lines| >= 1
    ensures |r| >= 1
  {
    if buffer == [] then lines else Trimmed(Appended(lines, Join(buffer, "\n")), maxLines)
  }

  class LogBuffer {
    const maxLines: int
    var buffer: seq<string>
    /** The widget's document, one entry per block. */
    var lines: seq<string>
    var autoScroll: bool

    ghost predicate Valid()
      reads this
    {
      |lines| >= 1 && |buffer| <= FlushThreshold
    }

    /** A buffer for a new, empty log widget; scrolling follows the end. */
    constructor (maxLines: int)
      ensures Valid()
      ensures this.maxLines == maxLines && buffer == [] && lines == [""] && autoScroll
    {
      this.maxLines := maxLines;
      buffer := [];
      lines := [""];
      autoScroll := true;
    }

    /** `flush`. */
    method Flush()
      requires |lines| >= 1
      modifies this
      ensures Valid()
      ensures buffer == [] && lines == Flushed(old(lines), old(buffer), maxLines)
      ensures autoScroll == old(autoScroll)
    {
      if buffer == [] {
        return;
      }
      var text := Join(buffer, "\n");
      if lines == [""] {
        lines := Split(text, '\n');
      } else {
        lines := lines + Split(text, '\n');
      }
      buffer := [];
      if |lines| > maxLines {
        if |lines| >= 2 {
          lines := lines[1..];
        } else {
          lines := [""];
        }
      }
    }

    /** `append`: buffer the line, and flush once the buffer has grown past
        the threshold. */
    method Append(text: string)
      requires Valid()
      modifies this
      ensures Valid()
      ensures |old(buffer)| + 1 > FlushThreshold ==>
        buffer == [] && lines == Flushed(old(lines), old(buffer) + [text], maxLines)
      ensures |old(buffer)| + 1 <= FlushThreshold ==> buffer == old(buffer) + [text] && lines == old(lines)
      ensures autoScroll == old(autoScroll)
    {
      buffer := buffer + [text];
      if |buffer| > FlushThreshold {
        Flush();
      }
    }

    /** `toggle_auto_scroll`: flip the flag and answer its new value. */
    method ToggleAutoScroll() returns (on: bool)
      modifies this
      ensures on == autoScroll == !old(autoScroll)
      ensures buffer == old(buffer) && lines == old(lines)
    {
      autoScroll := !autoScroll;
      on := autoScroll;
    }
  }

  /** A flush writes the buffered lines, in order, after what the document
      held (in its place when it was empty), provided no buffered entry
      holds a newline of its own. */
  lemma FlushShowsBuffer(lines: seq<string>, buffer: seq<string>)
    requires |lines| >= 1 && buffer != []
    requires forall i :: 0 <= i < |buffer| ==> '\n' !in buffer[i]
    ensures Appended(lines, Join(buffer, "\n")) == if lines == [""] then buffer else lines + buffer
  {
    SplitJoin(buffer, '\n');
  }

  /** The trim drops exactly one line, the oldest, and only above the
      limit. */
  lemma TrimDropsOne(lines: seq<string>, maxLines: int)
    requires |lines| >= 2
    ensures Trimmed(lines, maxLines) == if |lines| > maxLines then lines[1..] else lines
    ensures |Trimmed(lines, maxLines)| >= |lines| - 1
  {
  }

  /** With at most one new line per flush the limit is kept; a batch of two
      or more lines can leave the document over the limit, since only one
      line is dropped. */
  lemma CapKeptOnlyLineByLine(lines: seq<string>, buffer: seq<string>, maxLines: int)
    requires 1 <= |lines| <= maxLines && |buffer| >= 1
    requires forall i :: 0 <= i < |buffer| ==> '\n' !in buffer[i]
    ensures |buffer| == 1 ==> |Flushed(lines, buffer, maxLines)| <= maxLines
    ensures lines != [""] && |lines| == maxLines ==> |Flushed(lines, buffer, maxLines)| == maxLines + |buffer| - 1
  {
    FlushShowsBuffer(lines, buffer);
  }
}
