/** `utils/logger_config.py`: the handler that collects log text for the
    Allure report, and the configuration of the root logger with a file, a
    console and an Allure handler.

    The handler's buffer is a `StringIO`, modelled with its text and its
    position. Formatting a record is an input: the formatted text or the
    exception formatting raised. What goes to standard error is returned. */
module LoggerConfig {
  import opened Common
  import opened Strings
  import opened Lists

  /** `logging.DEBUG`, the default level. */
  const DebugLevel: int := 10
  const DefaultLogFile: string := "tlv_auto.log"
  const DefaultLogDir: seq<string> := ["logs"]
  const LogFormat: string := "%(asctime)s [%(levelname)-8s] %(name)s:%(lineno)d - %(message)s"
  const DateFormat: string := "%Y-%m-%d %H:%M:%S"
  const RuntimeLogName: string := "Runtime Log"
  const EmitErrorPrefix: string := "Allure日志错误: "

  /** The text of a `StringIO` at `value` after writing `s` at position
      `pos`: a gap past the end is filled with NULs, and the write
      overwrites what lies under it. */
  function Written(value: string, pos: nat, s: string): string {
    var padded := if pos > |value| then value + Repeat('\0', pos - |value|) else value;
    padded[..pos] + s + (if pos + |s| < |padded| then padded[pos + |s|..] else "")
  }

  /** Writing at the end appends. */
  lemma WriteAtEnd(value: string, s: string)
    ensures Written(value, |value|, s) == value + s
  {
    assert value[..|value|] == value;
  }

  /** Writing into emptied text at a position past its start leaves NULs
      before the written text: what a `truncate(0)` without the `seek(0)`
      after it would give. */
  lemma WriteAfterTruncateOnly(pos: nat, s: string)
    requires pos > 0
    ensures Written("", pos, s) == Repeat('\0', pos) + s
    ensures Written("", pos, s)[0] == '\0'
  {
    assert ("" + Repeat('\0', pos))[..pos] == Repeat('\0', pos);
  }

  class StringIO {
    var value: string
    var pos: nat

    constructor ()
      ensures value == "" && pos == 0
    {
      value := "";
      pos := 0;
    }

    method Write(s: string)
      modifies this
      ensures value == Written(old(value), old(pos), s) && pos == old(pos) + |s|
    {
      value := Written(value, pos, s);
      pos := pos + |s|;
    }

    /** `truncate(size)`: cut the text to `size` characters; the position
        stays where it was. */
    method Truncate(size: nat)
      modifies this
      ensures value == if size < |old(value)| then old(value)[..size] else old(value)
      ensures pos == old(pos)
    {
      if size < |value| {
        value := value[..size];
      }
    }

    method Seek(p: nat)
      modifies this
      ensures pos == p && value == old(value)
    {
      pos := p;
    }
  }

  /** `AllureLogHandler`. */
  class AllureLogHandler {
    const logBuffer: StringIO

    /** Every write so far went to the end of the buffer. */
    ghost predicate Valid()
      reads this, logBuffer
    {
      logBuffer.pos == |logBuffer.value|
    }

    constructor ()
      ensures Valid() && fresh(logBuffer) && logBuffer.value == ""
    {
      logBuffer := new StringIO();
    }

    /** `emit`: the formatted record and a newline are added to the buffer;
        when formatting raises, the exception's text goes to standard error
        and the buffer is left alone. */
    method Emit(formatted: Result<string>) returns (stderrText: string)
      requires Valid()
      modifies logBuffer
      ensures Valid()
      ensures formatted.Ok? ==> logBuffer.value == old(logBuffer.value) + formatted.value + "\n" && stderrText == ""
      ensures formatted.Err? ==>
        logBuffer.value == old(logBuffer.value) && stderrText == EmitErrorPrefix + formatted.error.message
    {
      match formatted
      case Err(e) =>
        stderrText := EmitErrorPrefix + e.message;
      case Ok(msg) =>
        WriteAtEnd(logBuffer.value, msg + "\n");
        logBuffer.Write(msg + "\n");
        stderrText := "";
    }

    /** `flush`: attach the collected text when there is any, then empty
        the buffer and rewind it. */
    method Flush() returns (attached: Option<Attachment>)
      modifies logBuffer
      ensures Valid() && logBuffer.value == "" && logBuffer.pos == 0
      ensures old(logBuffer.value) != "" <==> attached.Some?
      ensures attached.Some? ==> attached.value == Text(RuntimeLogName, old(logBuffer.value))
    {
      var content := logBuffer.value;
      attached := if content != "" then Some(Text(RuntimeLogName, content)) else None;
      logBuffer.Truncate(0);
      logBuffer.Seek(0);
    }
  }

  /** Where a handler sends its records. */
  datatype Sink = LogFile(path: string) | Console | Report(handler: AllureLogHandler)

  class Handler {
    const sink: Sink
    var level: int
    var format: Option<string>

    /** A new handler: every level passes, no formatter is set. */
    constructor (sink: Sink)
      ensures this.sink == sink && level == 0 && format == None
    {
      this.sink := sink;
      level := 0;
      format := None;
    }
  }

  /** The root logger: its handlers in order and its level. */
  class RootLogger {
    var handlers: seq<Handler>
    var level: int

    /** `removeHandler`: drop the handler if it is there. */
    method RemoveHandler(h: Handler)
      modifies this
      ensures handlers == if h in old(handlers) then Remove(old(handlers), h) else old(handlers)
      ensures level == old(level)
    {
      if h in handlers {
        handlers := Remove(handlers, h);
      }
    }

    /** `addHandler`: add the handler at the end unless it is there. */
    method AddHandler(h: Handler)
      modifies this
      ensures handlers == if h in old(handlers) then old(handlers) else old(handlers) + [h]
      ensures level == old(level)
    {
      if h !in handlers {
        handlers := handlers + [h];
      }
    }
  }

  /** A handler at `level` with the common format. */
  method NewHandler(sink: Sink, level: int) returns (h: Handler)
    ensures fresh(h) && h.sink == sink && h.level == level && h.format == Some(LogFormat)
  {
    h := new Handler(sink);
    h.level := level;
    h.format := Some(LogFormat);
  }

  /** `configure_logger`: remove every handler of the root logger, set its
      level, and install a file, a console and an Allure handler at that
      level with the common format. Answers the Allure handler and the log
      file's path, `log_dir / log_file` in Windows form. */
  method ConfigureLogger(root: RootLogger, level: int, logFile: string, logDir: seq<string>)
    returns (allure: AllureLogHandler, path: string)
    modifies root
    ensures path == Join(logDir + [logFile], [OsSep])
    ensures root.level == level && |root.handlers| == 3
    ensures root.handlers[0].sink == LogFile(path)
    ensures root.handlers[1].sink == Console
    ensures root.handlers[2].sink == Report(allure)
    ensures forall i :: 0 <= i < 3 ==>
      fresh(root.handlers[i]) && root.handlers[i].level == level && root.handlers[i].format == Some(LogFormat)
    ensures fresh(allure) && allure.Valid() && allure.logBuffer.value == ""
  {
    var existing := root.handlers;
    for i := 0 to |existing|
      invariant root.handlers == existing[i..]
    {
      assert existing[i..][0] == existing[i];
      root.RemoveHandler(existing[i]);
      assert existing[i..][1..] == existing[i + 1..];
    }
    root.level := level;
    path := Join(logDir + [logFile], [OsSep]);
    var fileHandler := NewHandler(LogFile(path), level);
    var consoleHandler := NewHandler(Console, level);
    allure := new AllureLogHandler();
    var allureHandler := NewHandler(Report(allure), level);
    root.AddHandler(fileHandler);
    root.AddHandler(consoleHandler);
    root.AddHandler(allureHandler);
  }
}
