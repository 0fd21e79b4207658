/** The vocabulary of UI automation: how a control is identified, what a
    readiness query answers, and the actions the harness issues through
    pywinauto, recorded in order as a trace. */
module Ui {
  import opened Common

  datatype ControlType = Button | ComboBox | Edit | List | ListItem | Window | Pane

  /** The (title, automation id, control type) tuple a control is matched by. */
  datatype Locator = Locator(title: string, autoId: Option<string>, controlType: ControlType)

  /** A control resolved in the live UI tree. */
  datatype Element = Element(handle: nat)

  datatype Point = Point(x: int, y: int)

  /** The three readiness queries: exists(), is_visible(), is_enabled(). */
  datatype Query = Exists | IsVisible | IsEnabled

  /** What one query returns, or the exception it raises. */
  datatype Answer = Yes | No | Fails(error: Error)

  /** One action issued against the target application. */
  datatype Action =
    | WaitReady(target: Locator)              // SmartWait.until_element_ready(target)
    | Probe(target: Locator, query: Query)    // one readiness query
    | Lookup(target: Locator, timeoutMs: int) // child_window(...).wait("exists ready", timeout)
    | Expand(target: Locator)
    | Click(target: Locator)
    | ClickInput(target: Locator)
    | ClickElement(element: Element)          // click_input() on a resolved element
    | TypeKeys(target: Locator, keys: string)
    | ReadValue(target: Locator)
    | ReadRectangle(target: Locator)
    | DragMouse(target: Locator, src: Point, dst: Point)
    | Sleep(ms: int)

  /** One readiness poll as both the gate and `get_state` evaluate it:
      exists() and is_visible() and is_enabled(), left to right, stopping at
      the first query that does not answer Yes. */
  datatype PollResult = Ready | NotReady | PollFailed(error: Error)

  const ReadinessQueries: seq<Query> := [Exists, IsVisible, IsEnabled]

  function Poll(control: Locator, answer: Query -> Answer): (r: (PollResult, seq<Action>))
    ensures r.0 == Ready <==> answer(Exists) == Yes && answer(IsVisible) == Yes && answer(IsEnabled) == Yes
    ensures 1 <= |r.1| <= 3
    ensures var last := answer(ReadinessQueries[|r.1| - 1]);
      && (r.0 == NotReady <==> last == No)
      && (last.Fails? ==> r.0 == PollFailed(last.error))
    ensures r.1 == Asked(control, |r.1|)
    ensures |r.1| >= 2 ==> answer(Exists) == Yes
    ensures |r.1| >= 3 ==> answer(IsVisible) == Yes
  {
    var queries := ReadinessQueries;
    var asked := AskUntilNotYes(answer, queries);
    var trace := Asked(control, asked);
    var last := answer(queries[asked - 1]);
    if last == Yes then (Ready, trace)
    else if last.Fails? then (PollFailed(last.error), trace)
    else (NotReady, trace)
  }

  /** The first `n` readiness queries, as actions on `control`. */
  function Asked(control: Locator, n: nat): (t: seq<Action>)
    requires n <= |ReadinessQueries|
    ensures |t| == n
  {
    seq(n, k requires 0 <= k < n => Probe(control, ReadinessQueries[k]))
  }

  /** How many of `queries` are asked: up to and including the first that is
      not answered Yes. */
  function AskUntilNotYes(answer: Query -> Answer, queries: seq<Query>): (n: nat)
    requires |queries| >= 1
    ensures 1 <= n <= |queries|
    ensures forall k :: 0 <= k < n - 1 ==> answer(queries[k]) == Yes
    ensures n < |queries| ==> answer(queries[n - 1]) != Yes
    decreases |queries|
  {
    if |queries| == 1 || answer(queries[0]) != Yes then 1
    else 1 + AskUntilNotYes(answer, queries[1..])
  }

  /** How many actions of a trace satisfy `p`. */
  function Count(trace: seq<Action>, p: Action -> bool): nat {
    if trace == [] then 0 else (if p(trace[0]) then 1 else 0) + Count(trace[1..], p)
  }

  lemma {:induction false} CountAppend(a: seq<Action>, b: seq<Action>, p: Action -> bool)
    ensures Count(a + b, p) == Count(a, p) + Count(b, p)
    decreases |a|
  {
    if a == [] {
      assert a + b == b;
    } else {
      assert (a + b)[1..] == a[1..] + b;
      CountAppend(a[1..], b, p);
    }
  }
}
