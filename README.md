# tlv_autotest core, modelled in Dafny

This project models the decision-making core of the `tlv_autotest` harness, a Python
harness that drives a Windows desktop application through pywinauto and reports to Allure.
It covers the following:

- the bounded-retry decorator;
- the paged list search;
- the readiness-polling gate;
- the drag geometry of `set_size`;
- the page objects for the main window and the method dialog;
- the case runner of `tests/test_suite.py`;
- the runner's case-selection dict;
- the case-structure and path derivation of the data loader;
- the log widget's `LogBuffer`;
- the Allure log handler and the root-logger configuration;
- screenshot naming.

The outside world is replaced by oracles and traces:

- **Controls.** A control is a `Locator`, which is a title, an automation id and a
  control type. Each pywinauto call the harness makes becomes an `Action` appended to a
  trace. What the application answers comes from a function parameter: readiness
  answers, rows found per page, exceptions raised per action, and camera results.
- **Time.** Time is an integer number of milliseconds, so 10.0 s is 10000 and 0.5 s is
  500. The gate's clock before poll `i` is the start plus the durations of earlier polls
  plus the intervals slept.
- **Exceptions.** An exception is an `Error` with a class (`ExcKind`) and its `str()`
  text. A call that may raise returns a `Result`.
- **Dicts.** A Python `dict` whose insertion order matters is an association list
  (`seq<Entry>`) in which the first entry with a key wins.
- **Paths.** Paths are sequences of parts. `str()` of a path joins them with a backslash,
  because the harness runs on Windows. `as_posix()` joins them with '/'.

Each source file keeps its own form:

- **Loops.** Loops become methods with `while`/`for` loops. Each method is proved against
  a specification function: `Retry.Wrapper`, `FindItem.FindListItem`,
  `WaitStrategy.SmartWait.UntilElementReady`,
  `MethodWindowPage.MethodWindowPage.SetParameters`, `TestSuite.RunCase`,
  `DataLoader.GetCaseStructure` / `LoadIndependentCases` / `GenerateSelectedCases`,
  `TestRunnerModel.SelectionModel.SelectAllCases` and `LoggerConfig.ConfigureLogger`.
- **Objects.** Objects that the source updates in place become classes with `modifies`
  clauses: `SmartWait`, the page objects, `SelectionModel`, `LogBuffer`, `StringIO`,
  `AllureLogHandler`, `RootLogger` and `Suite`.
- **Pure code.** Arithmetic and string construction become functions, with lemmas about
  them.

Modules:

- `Common`: values, errors and Python `str()`.
- `Strings`: join, split and replace.
- `Ui`: locators, readiness queries and one readiness poll.
- `Lists`: `list.remove` and distinctness.
- One module per core source file.

## Model

| member | source | states |
|---|---|---|
| Common.Str | tests/test_suite.py:61 | `str()` of a scalar: a string is itself, a bool is "True"/"False", None is "None", any other YAML value is its printed text, and an int is its decimal digits, with a leading '-' exactly when it is negative |
| Strings.IntToString | tests/test_suite.py:61 | the decimal text of an int: digits whose value is the int, or '-' followed by the digits of its magnitude |
| Strings.DigitsRead | tests/test_suite.py:61 | reading the digits of a natural number back gives the number |
| Strings.Split | utils/data_loader.py:27 | splitting never yields an empty list |
| Strings.SplitJoin | gui/test_runner_view.py:42 | joining parts with a separator none of them contains, then splitting at that separator, gives the parts back |
| Strings.Replace | utils/screenshot.py:29 | `str.replace` of one character: same length, every occurrence replaced, everything else kept |
| Ui.Poll | core/wait_strategy.py:22 | one readiness poll is Ready exactly when exists, is_visible and is_enabled all answer yes. It asks them in that order and stops at the first that does not (1 to 3 queries). A query that raises makes the poll fail with that error |
| Ui.AskUntilNotYes | core/pages/base_page.py:27-31 | the short-circuit count: every query before the last one asked answered yes, and the last one asked did not unless all were asked |
| Retry.Wrapper | utils/retry.py:8-17 | the loop's outcome (value, None or the raised error) and its calls and sleeps are exactly those of the specification `RetryFrom`. With `max_attempts <= 0` it returns None and calls nothing |
| Retry.RetryStep | utils/retry.py:11-17 | one turn of the loop: return on success, re-raise an error that is not caught or that spends the budget, otherwise sleep `delay` and go on (a negative delay raises ValueError) |
| Retry.CallsBounded | utils/retry.py:10-16 | the function is called at most `max_attempts` times, and there is one more call than sleeps whenever it is called |
| Retry.SucceedsOnAttempt | utils/retry.py:10-17 | if call k is the first success and every earlier call raised a caught error, the value of call k is returned after k+1 calls and k sleeps of `delay` |
| Retry.ExhaustsBudget | utils/retry.py:13-17 | if every call raises a caught error, there are exactly `max_attempts` calls with a sleep between consecutive ones, and the last error is re-raised unchanged |
| Retry.UncaughtPropagates | utils/retry.py:11-13 | an error outside `exceptions` propagates from the call that raised it, with no later call and no sleep |
| Retry.NoneOnlyWithoutBudget | utils/retry.py:9-10 | the wrapper returns None exactly when the budget is already spent, and then calls nothing |
| Retry.BackoffCounts | utils/retry.py:14-17 | n caught failures cost n calls and n sleeps |
| FindItem.FindListItem | core/find_item.py:4-27 | the loop's item, its `current_attempt` counter and the actions it issues equal the specification `SearchFrom`. The counter never exceeds `attempts` (0 when `attempts <= 0`) |
| FindItem.SearchOutcome | core/find_item.py:11-27 | the search returns the item of the first page where the lookup hits, matched by title and ListItem type. It returns None exactly when no page before `attempts` has the item, and then it has missed on every page. Every miss, the last included, is one lookup, one page-down click and one 100 ms pause; a hit adds one lookup |
| FindItem.SearchCost | core/find_item.py:18-21 | k misses before a hit cost k+1 lookups and k page-down clicks; a total miss costs `attempts` clicks |
| WaitStrategy.SmartWait.constructor | core/wait_strategy.py:8-14 | stores the timeout and interval (defaults 10000 ms and 500 ms) |
| WaitStrategy.SmartWait.UntilElementReady | core/wait_strategy.py:16-26 | the result, the actions and the number of polls equal the specification `WaitFrom` with deadline start + base_timeout. It never returns False: it returns True, raises the TimeoutError whose message holds `str()` of the control passed in, or propagates an exception a query raised |
| WaitStrategy.AsResult | core/wait_strategy.py:23-26 | the caller sees Ok exactly when the control became ready, and then True; a timeout is a TimeoutError |
| WaitStrategy.WaitStep | core/wait_strategy.py:21-25 | one turn before the deadline: a ready poll returns, a poll whose query raises propagates, and a not-ready poll sleeps the interval and polls again |
| WaitStrategy.GateTiming | core/wait_strategy.py:20-26 | every poll starts before the deadline. A timeout happens only once the clock has reached the deadline. A ready result comes from a poll where all three queries held |
| WaitStrategy.NotReadyBefore | core/wait_strategy.py:21-25 | every poll before the last was not ready, and after a timeout every poll was: a True result comes from the first ready poll, and a timeout follows only polls that were not ready |
| WaitStrategy.ReadyInTime | core/wait_strategy.py:20-23 | a control whose first ready poll starts before the deadline is reported ready at exactly that poll |
| WaitStrategy.SleepsAreInterval | core/wait_strategy.py:24-25 | the gate issues only readiness queries and sleeps of exactly `base_interval` |
| WaitStrategy.NoTimeNoPoll | core/wait_strategy.py:20-21 | with a timeout of 0 or less there is no poll and an immediate TimeoutError |
| SetSize.StartPoint | core/set_size.py:8-15 | a start exists exactly for directions 0 and 7. Direction 0 gives (floor((right-left)/2), top-3); direction 7 gives (right, bottom) |
| SetSize.SetSize | core/set_size.py:4-26 | the rectangle is read first, and an exception from that read ends the call. Any other direction than 0 or 7 fails with the unassigned-start error after that read only. Otherwise there is exactly one drag from the start to start+offset; an exception from the drag ends the call, and otherwise a 1000 ms sleep follows |
| SetSize.HalfWidthIsNotMidpoint | core/set_size.py:10 | the direction-0 x is the horizontal midpoint only when `left` is 0 |
| SetSize.MainWindowLayout | core/pages/main_page.py:46-47 | the layout calls drag the lower edit's top edge by (0, 300) and the pane's bottom-right corner by (1000, 600) |
| BasePage.WindowState | core/pages/base_page.py:24-33 | `get_state` is True exactly when all three queries hold. A TimeoutError from a query yields False. Any other exception propagates, and it is one a query raised. A missing window costs a single query |
| BasePage.Page.constructor | core/pages/base_page.py:9-16 | stores the window and a fresh gate with a 10000 ms timeout and the default interval |
| BasePage.Page.InitControls | core/pages/base_page.py:20-22 | the base `_init_controls` raises NotImplementedError |
| BasePage.NewBasePage | core/pages/base_page.py:9-17 | constructing a bare base page fails with that NotImplementedError |
| MethodWindowPage.PerformOutcome | core/pages/method_window_page.py:53-58 | actions are issued in order up to and including the first that raises, whose error is returned; the result is Ok exactly when none raises |
| MethodWindowPage.ParamControl | core/pages/method_window_page.py:42-45 | the parameter control is a ComboBox exactly when the parameter is a bool, an Edit otherwise |
| MethodWindowPage.PropertyRead | core/pages/method_window_page.py:60-62 | "return_value" reads the Return Value control once; the read gives the control's text, or the exception the read raises. Any other name gives None and issues nothing |
| MethodWindowPage.MethodWindowPage.constructor | core/pages/method_window_page.py:9-15 | a page on the window with no actions yet and the base page's gate |
| MethodWindowPage.MethodWindowPage.SelectMethod | core/pages/method_window_page.py:26-36 | the result and the actions appended are those of `select_method` run under the retry wrapper with 5 attempts, catching ElementNotFoundError only |
| MethodWindowPage.MethodWindowPage.SetParameters | core/pages/method_window_page.py:38-51 | the loop's result and the actions appended equal the specification `ParamsFrom` |
| MethodWindowPage.MethodWindowPage.ExecuteInvoke | core/pages/method_window_page.py:53-58 | waits for the Invoke button and clicks it, stopping at an exception |
| MethodWindowPage.MethodWindowPage.InvokeMethod | core/pages/method_window_page.py:17-24 | returns the page itself. It selects, then sets the parameters, then invokes, stopping at the first failure |
| MethodWindowPage.MethodWindowPage.GetState | core/pages/base_page.py:24-33 | the inherited `get_state` on the dialog's window |
| MethodWindowPage.MethodWindowPage.GetProperty | core/pages/method_window_page.py:60-62 | the value or exception and the actions of `PropertyRead` |
| MethodWindowPage.MethodWindowPage.CloseMethod | core/pages/method_window_page.py:64-67 | waits for the Close button and clicks it, stopping at an exception |
| MethodWindowPage.ParamsShape | core/pages/method_window_page.py:41-49 | parameter k occupies exactly actions 3k to 3k+2 of the plan: wait, type `str(param)`, click Set Value |
| MethodWindowPage.ParamsAllSet | core/pages/method_window_page.py:41-51 | when nothing raises, `set_parameters` issues the whole plan and succeeds; no parameters means no actions |
| MethodWindowPage.ParamsCounts | core/pages/method_window_page.py:46-49 | one typing and one Set Value click per parameter |
| MethodWindowPage.ParamsWaits | core/pages/method_window_page.py:46-49 | every typing comes right after the wait on the same control; the Set Value button is never waited on |
| MethodWindowPage.MissingItemNotRetried | core/pages/method_window_page.py:33-34 | a method missing from the list makes `item.click_input()` on None fail. The retry does not catch that error, so there is a single attempt of 20 misses |
| MethodWindowPage.SelectedFirstTime | core/pages/method_window_page.py:29-36 | a method found on page p of the first attempt is clicked after p misses, with no retry |
| MethodWindowPage.SelectGivesUp | core/pages/method_window_page.py:26 | if every attempt raises ElementNotFoundError, `select_method` runs 5 times, sleeping 1000 ms between attempts, and re-raises the last error |
| MethodWindowPage.InvokeInOrder | core/pages/method_window_page.py:17-24 | when every step succeeds, the actions are the selection, then every parameter's plan, then the invoke actions |
| TestSuite.OpenStep | tests/test_suite.py:28-32 | adds the numbered step title; reopens the dialog only when `get_state` is False |
| TestSuite.InvokeStep | tests/test_suite.py:33-41 | invokes the method with its parameters (default []), then attaches the parameter text |
| TestSuite.CheckStep | tests/test_suite.py:46-64 | one validation: read the property (an exception there ends it before any report step or screenshot), attach the details, take the screenshot, then compare `str(actual)` with `str(expected)` |
| TestSuite.Validate | tests/test_suite.py:44-64 | the validation loop's verdict, report and actions equal the specification `Checks`, which stops at the first failed comparison |
| TestSuite.CloseStep | tests/test_suite.py:67-73 | when `close_after` is set, closes the dialog and photographs the main window with suffix `{id}_{i}_xdg` |
| TestSuite.RunStep | tests/test_suite.py:27-73 | one step is the opening, the invocation, the checks and the closing, in that order, ending at the first that does not pass |
| TestSuite.RunCase | tests/test_suite.py:21-73 | the step loop's verdict, report and actions equal the specification `CaseRun`: description, tag, then steps in order until one does not pass |
| TestSuite.ReopenOnlyWhenNotReady | tests/test_suite.py:28-32 | the report starts with "步骤 i+1: method". The dialog is reopened exactly when `get_state` answers False. Reopening issues nothing through the dialog's page |
| TestSuite.MissingKeysDefault | tests/test_suite.py:33 | a missing `params` behaves as [] and a missing `close_after` as False |
| TestSuite.ChecksPass | tests/test_suite.py:45-64 | the checks pass exactly when every property read succeeds, every screenshot succeeds and every validation prints as expected. Then there is one screenshot per validation. A failed comparison ends the report with its screenshot |
| TestSuite.CheckVerdict | tests/test_suite.py:46-64 | one validation passes exactly when its property read and its screenshot succeed and `str(actual) == str(expected)`, with one screenshot. A read that raises surfaces its error with no evidence. A mismatch raises AssertionError after the dialog's screenshot. A screenshot failure surfaces that error. The property is read at most once |
| TestSuite.CloseAfterChecks | tests/test_suite.py:66-73 | the dialog is closed only when `close_after` is set and every validation passed. A passing close ends with the close actions and the main window's screenshot |
| TestSuite.StepOutcome | tests/test_suite.py:27-73 | a passing step took one screenshot per validation plus one if it closes, and every validation matched. A step that fails an assertion ends with the dialog's screenshot |
| TestSuite.CaseOutcome | tests/test_suite.py:27-73 | a case passes exactly when each step passes. Then its screenshots number the validations plus the closing steps, and every validation matched. A failed case ends with the screenshot taken before the failed comparison |
| TestSuite.LaterStepsSkipped | tests/test_suite.py:61-64 | the first step that does not pass decides the case's verdict; no later step runs |
| TestSuite.Suite.constructor | tests/test_suite.py:7 | `CASES` starts empty |
| TestSuite.Suite.SetupModule | tests/test_suite.py:9-13 | loads the cases only when `CASES` is empty |
| TestRunnerModel.SelectionModel.constructor | gui/test_runner_model.py:14-15 | nothing selected, nothing saved, and the selection is a dict without repeated modules |
| TestRunnerModel.SelectionModel.UpdateSelectedCases | gui/test_runner_model.py:29-45 | an empty module name changes nothing and saves nothing. Otherwise the selection becomes `Updated(...)` and is saved. No module name ever appears twice |
| TestRunnerModel.SelectionModel.SelectAllCases | gui/test_runner_model.py:47-52 | the old selection is discarded and every module of the structure is stored with its list, then saved. No module name appears twice |
| TestRunnerModel.SelectionModel.DeselectAllCases | gui/test_runner_model.py:54-57 | the selection is empty and saved |
| TestRunnerModel.SelectAllIsStructure | gui/test_runner_model.py:49-51 | selecting all of a structure whose keys do not repeat gives exactly that structure |
| TestRunnerModel.SelectAllLoadsEveryCase | gui/test_runner_model.py:47-52 | selecting all of the structure built from the case files, then generating the cases, loads each of those files exactly once |
| TestRunnerModel.SelectAppends | gui/test_runner_model.py:35-37 | selecting appends the case at the end of its module's list unless it is already there |
| TestRunnerModel.SelectIdempotent | gui/test_runner_model.py:35-37 | selecting twice is selecting once |
| TestRunnerModel.DeselectRemoves | gui/test_runner_model.py:38-42 | deselecting a selected case removes its first occurrence; the module stays a key exactly when its list is not emptied |
| TestRunnerModel.DeselectAbsentModule | gui/test_runner_model.py:39 | deselecting from a module with no entry leaves that module mapped to [] at the end of the dict |
| TestRunnerModel.SelectThenDeselect | gui/test_runner_model.py:35-42 | selecting a case that was not selected and then deselecting it restores the selection. The exception is a module that was mapped to []: it is deleted |
| TestRunnerModel.OthersUntouched | gui/test_runner_model.py:29-42 | an update leaves every other module's entry and membership as they were |
| TestRunnerModel.NoDuplicates | gui/test_runner_model.py:35-42 | a module's list without repeats keeps none; a deselected case is gone from it |
| TestRunnerModel.KeysStayDistinct | gui/test_runner_model.py:29-42 | module keys never repeat after an update |
| DataLoader.GetCaseStructure | utils/data_loader.py:21-34 | the grouping loop builds the specification `Structure`. Each file's stem goes at the end of its parent module's list, and the key is created on the module's first file |
| DataLoader.StructureKeysDistinct | utils/data_loader.py:30-32 | no module appears twice in the structure |
| DataLoader.LoadIndependentCases | utils/data_loader.py:5-19 | the loop loads one case per file in order, with `_meta.path` set; it stops at the first read error |
| DataLoader.LoadAllOk | utils/data_loader.py:11-17 | loading succeeds exactly when every read does. It then yields one case per path, in order, whose `_meta.path` is that path in Windows form |
| DataLoader.LoadAllErr | utils/data_loader.py:11-17 | a failed load reports the first failing read's error |
| DataLoader.LoadModule | utils/data_loader.py:42-50 | one module's names are loaded as `module/name.yaml`, continuing the loading order |
| DataLoader.GenerateSelectedCases | utils/data_loader.py:36-52 | the loop loads exactly the selected paths, module order then name order |
| DataLoader.ModulePaths | utils/data_loader.py:42-44 | one path per selected name |
| DataLoader.PathsAppend | utils/data_loader.py:41-43 | the paths of concatenated selections concatenate |
| DataLoader.AddCasePaths | utils/data_loader.py:30-32 | adding a case to the structure adds exactly its rebuilt path to what would be loaded |
| DataLoader.CasePathRoundTrip | utils/data_loader.py:44 | for a `.yaml` file, rebuilding `module/stem.yaml` from its (parent, stem) gives back its path |
| DataLoader.SelectAllLoadsEachFile | utils/data_loader.py:26-32 | the paths rebuilt from the structure of the case files are those files, each exactly once |
| DataLoader.GetPut | gui/test_runner_model.py:37 | a stored list is read back |
| DataLoader.PutOther | gui/test_runner_model.py:37 | storing under one key leaves the others alone |
| DataLoader.DeleteOther | gui/test_runner_model.py:42 | deleting one key leaves the others alone |
| DataLoader.KeysPut | gui/test_runner_model.py:37 | storing keeps the key order and appends a new key at the end |
| DataLoader.KeysDelete | gui/test_runner_model.py:42 | deleting removes the key from the key order |
| DataLoader.PutKeepsDistinct | gui/test_runner_model.py:37 | storing keeps the keys free of repeats |
| Lists.RemoveFirst | gui/test_runner_model.py:40 | `list.remove` drops exactly the first occurrence |
| Lists.RemoveDistinct | gui/test_runner_model.py:40 | removing from a list without repeats leaves the element absent and the list without repeats |
| Lists.RemoveAppended | gui/test_runner_model.py:40 | removing an element just appended to a list that lacked it restores the list |
| LogView.LogBuffer.constructor | gui/test_runner_view.py:15-24 | an empty buffer, an empty document and auto-scroll on |
| LogView.LogBuffer.Append | gui/test_runner_view.py:26-30 | the text is buffered; past 20 entries the buffer is flushed, so it never holds more than 20 |
| LogView.LogBuffer.Flush | gui/test_runner_view.py:32-52 | an empty buffer changes nothing. Otherwise the buffer joined by newlines is appended, one line is trimmed if over the limit, and the buffer is emptied |
| LogView.LogBuffer.ToggleAutoScroll | gui/test_runner_view.py:63-65 | flips the flag and returns its new value |
| LogView.FlushShowsBuffer | gui/test_runner_view.py:42-43 | the buffered lines appear, in order, after the document's lines |
| LogView.TrimDropsOne | gui/test_runner_view.py:47-52 | the trim drops exactly the oldest line, and only above the limit |
| LogView.CapKeptOnlyLineByLine | gui/test_runner_view.py:47-52 | the line cap holds after a one-line flush; a batch of k lines on a full document leaves k-1 lines too many |
| LoggerConfig.StringIO.Write | utils/logger_config.py:15 | writes at the position, padding a gap with NULs, and moves the position past the text |
| LoggerConfig.StringIO.Truncate | utils/logger_config.py:23 | keeps the first `size` characters and leaves the position |
| LoggerConfig.StringIO.Seek | utils/logger_config.py:24 | moves the position only |
| LoggerConfig.WriteAtEnd | utils/logger_config.py:15 | a write at the end appends |
| LoggerConfig.WriteAfterTruncateOnly | utils/logger_config.py:23-24 | a write after truncating without seeking back would start with NULs; `flush` seeks to 0, which avoids this |
| LoggerConfig.AllureLogHandler.constructor | utils/logger_config.py:8-10 | a fresh, empty buffer |
| LoggerConfig.AllureLogHandler.Emit | utils/logger_config.py:12-17 | the formatted record and "\n" are appended. A formatting error goes to stderr with its prefix and leaves the buffer unchanged |
| LoggerConfig.AllureLogHandler.Flush | utils/logger_config.py:19-24 | exactly the accumulated text is attached as "Runtime Log" when it is not empty, and nothing otherwise; the buffer is then empty at position 0 |
| LoggerConfig.RootLogger.RemoveHandler | utils/logger_config.py:33 | removes the handler if present |
| LoggerConfig.RootLogger.AddHandler | utils/logger_config.py:63-65 | appends the handler unless present |
| LoggerConfig.ConfigureLogger | utils/logger_config.py:26-67 | every old handler is removed and the level set. Exactly three fresh handlers (file, console, Allure) follow at that level with the common format. The returned path is `log_dir\log_file` |
| Screenshot.TimestampRoundTrip | utils/screenshot.py:26 | the stamp of a date-time is 15 characters: digits with '_' at index 8. Every field can be read back from its place |
| Screenshot.PadRead | utils/screenshot.py:26 | a `strftime` field that fits its width is exactly that wide and reads back as its number |
| Screenshot.PadValue | utils/screenshot.py:26 | zero-padding a field never changes the number it reads as |
| Screenshot.FileNameParts | utils/screenshot.py:26-30 | the file name is "screenshot_" + stamp, then "_" + the suffix with spaces replaced (only for a non-empty suffix), then ".png" |
| Screenshot.SpacesAreUnderscores | utils/screenshot.py:29 | suffixes differing only in spaces against underscores give the same file name |
| Screenshot.AttachmentNamesDistinct | utils/screenshot.py:41 | the attachment name keeps the suffix, so different suffixes give different names; it is never the error attachment's name |
| Screenshot.ErrorText | utils/screenshot.py:45-52 | the error text is the fixed message for a missing window, and the prefix plus `str(e)` otherwise |
| Screenshot.Take | utils/screenshot.py:12-53 | succeeds exactly when the camera does not fail, attaching the PNG under its attachment name. On a failure it attaches the error text as "SCREENSHOT_ERROR" and re-raises the same error |
| Screenshot.PathParts | utils/screenshot.py:44 | the returned path splits back into the directory parts followed by the file name |

## Left out

- Logging calls, `print` output and log messages are not modelled; they decide nothing.
- Waiting inside pages: a page's `until_element_ready` call is one `WaitReady` action. The gate itself is modelled in `WaitStrategy`, and whether it raises is folded into the page's per-action exception oracle.
- FindItem.FindListItem: the page-down click and the pause are taken not to raise. Which lookups raise or time out is an input, and any failure counts as a miss.
- MethodWindowPage.MissingItemNotRetried: the AttributeError from `None.click_input()` is modelled by its class only, not its message.
- SetSize.SetSize: reading `start_x` when no direction assigned it is modelled as an UnboundLocalError, without its message text.
- Screenshot.Take: the visibility check, the 5 s wait, `mkdir`, the capture and the file save are folded into one camera answer (the time stamp and the exception, if any). The image bytes are not modelled.
- Screenshot.TimestampRoundTrip: it assumes `%Y` gives four digits, so years are taken to lie between 1 and 9999 and are zero-padded.
- The YAML parser, malformed or non-dict YAML, and a missing key in a case dict (KeyError) are not modelled. A file read is an input that yields a case or an error.
- `rglob` traversal order and its file matching are inputs: the list of relative `.yaml` paths found.
- DataLoader.CasePathRoundTrip: it needs paths whose parts are non-empty, are not ".", hold no separator, and do not name a file that is just ".yaml". Other paths are not modelled.
- `load_saved_selection`, the file I/O of `save_selection`, `load_case_structure` and the exception fallback of `get_selected_cases` are not modelled. Each save is recorded as a snapshot of the selection.
- The `QTimer` that flushes `LogBuffer` every 100 ms, the cursor save and restore, and scrolling are not modelled. `Flush` can be called at any time, and the document is its list of lines.
- Handler level filtering, record formatting (an input to `Emit`), the formatter's date format, directory creation, the log file's I/O and the module-level default call of `configure_logger` are not modelled.
- Allure report internals, pytest parametrisation and test ids, and the fixtures that supply `app` and `method_window` are not modelled.
- The filling of `CASES` by the runner's controller is not modelled. `Suite.SetupModule` receives the loaded cases.
- The `main_page`, `insert_control_page`, application launch, runner controller and command-line entry point are not part of this model, apart from the two `set_size` calls the main page makes.
