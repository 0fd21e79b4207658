/** `BasePage`: what every page object shares. Construction stores the
    window, creates a readiness gate with a ten-second timeout and calls the
    page's control initialisation, which the base class leaves to its
    subclasses; `get_state` asks whether the window exists, is visible and is
    enabled, treating a pywinauto timeout during the queries as "no". */
module BasePage {
  import opened Common
  import opened Ui
  import WaitStrategy

  /** `SmartWait(base_timeout=10)`, in milliseconds. */
  const PageTimeoutMs: int := 10000

  /** What the base `_init_controls` raises. */
  const InitControlsMissing: Error := Error(NotImplementedError, "子类必须实现控件初始化")

  /** `get_state` on `window`, whose queries answer as `answer` says: the
      short-circuit conjunction exists() and is_visible() and is_enabled(),
      with a pywinauto TimeoutError read as False and every other exception
      passed on. */
  function WindowState(window: Locator, answer: Query -> Answer): (r: (Result<bool>, seq<Action>))
    ensures r.0 == Ok(true) <==> answer(Exists) == Yes && answer(IsVisible) == Yes && answer(IsEnabled) == Yes
    ensures r.0.Err? ==> r.0.error.kind != TimeoutError
    ensures r.0.Err? ==> Fails(r.0.error) in {answer(Exists), answer(IsVisible), answer(IsEnabled)}
    ensures answer(Exists).Fails? && answer(Exists).error.kind == TimeoutError ==> r.0 == Ok(false)
    ensures answer(Exists) == No ==> r.0 == Ok(false) && |r.1| == 1
    ensures r.1 == Poll(window, answer).1
  {
    var (result, probes) := Poll(window, answer);
    match result
    case Ready => (Ok(true), probes)
    case NotReady => (Ok(false), probes)
    case PollFailed(e) => (if e.kind == TimeoutError then Ok(false) else Err(e), probes)
  }

  /** The part of a page object the base class builds. Constructing a bare
      `BasePage` fails: its control initialisation is abstract. */
  class Page {
    const window: Locator
    const wait: WaitStrategy.SmartWait

    /** The field assignments of `BasePage.__init__`, which then runs the
        control initialisation (see `NewBasePage`). */
    constructor (window: Locator)
      ensures this.window == window
      ensures fresh(wait) && wait.baseTimeout == PageTimeoutMs
      ensures wait.baseInterval == WaitStrategy.DefaultIntervalMs
    {
      this.window := window;
      wait := new WaitStrategy.SmartWait(PageTimeoutMs);
    }

    /** The base `_init_controls`. */
    method InitControls() returns (r: Result<()>)
      ensures r == Err(InitControlsMissing)
    {
      r := Err(InitControlsMissing);
    }

    /** `get_state` on this page's window. */
    function GetState(answer: Query -> Answer): (r: (Result<bool>, seq<Action>))
      reads this
      ensures r.0 == Ok(true) <==> answer(Exists) == Yes && answer(IsVisible) == Yes && answer(IsEnabled) == Yes
      ensures r.1 == Poll(window, answer).1
    {
      WindowState(window, answer)
    }
  }

  /** Creating a bare `BasePage`: the constructor's call to
      `_init_controls` raises NotImplementedError. */
  method NewBasePage(window: Locator) returns (r: Result<Page>)
    ensures r == Err(InitControlsMissing)
  {
    var page := new Page(window);
    var init := page.InitControls();
    r := Err(init.error);
  }
}
