/** `MethodWindowPage`: the page object for the "invoke a method" dialog.
    A method call selects the method in a drop-down list (retried on
    ElementNotFoundError), types each parameter into its field and confirms
    it with "Set Value", then presses "Invoke". Every pywinauto call the page
    makes is recorded, in order, in the page's `actions`.

    `Screen` is what the application does in answer: which actions raise
    (separately for each attempt of the retried selection), what the paged
    list search finds, and the text of the return-value field. A call on a
    control that raises ends the page operation with that exception. */
module MethodWindowPage {
  import opened Common
  import opened Ui
  import WaitStrategy
  import BasePage
  import FindItem
  import Retry
  import Lists

  datatype Screen = Screen(
    raises: Action -> Option<Error>,
    selectRaises: nat -> Action -> Option<Error>,
    rows: nat -> nat -> Option<Element>,
    returnText: string)

  /** The controls `_init_controls` locates. */
  const MethodCombo: Locator := Locator("Method Name:", Some("1008"), ComboBox)
  const InvokeButton: Locator := Locator("Invoke", Some("1015"), Button)
  const ReturnValue: Locator := Locator("Return Value:", Some("1016"), Edit)
  const CloseButton: Locator := Locator("Close", Some("1"), Button)
  const MethodList: Locator := Locator("Method Name:", None, List)
  /** Located afresh for every parameter. */
  const SetValueButton: Locator := Locator("Set Value", Some("1013"), Button)

  /** `@retry(max_attempts=5, exceptions=ElementNotFoundError)` with the
      default one-second delay. */
  const SelectAttempts: int := 5
  const SelectCatch: CatchSpec := OnlyKinds({ElementNotFoundError})

  /** `item.click_input()` when the search returned None. */
  const NoItemClick: Error := Error(AttributeError, "'NoneType' object has no attribute 'click_input'")

  /** Issue `acts` in order until one raises: the actions issued, the last
      of them the one that raised. */
  function Perform(raises: Action -> Option<Error>, acts: seq<Action>): (Result<()>, seq<Action>)
    decreases |acts|
  {
    if acts == [] then (Ok(()), [])
    else if raises(acts[0]).Some? then (Err(raises(acts[0]).value), [acts[0]])
    else
      var rest := Perform(raises, acts[1..]);
      (rest.0, [acts[0]] + rest.1)
  }

  /** The calls stop exactly at the first one that raises, and that
      exception is the result; if none raises, all of them are issued. */
  lemma {:induction false} PerformOutcome(raises: Action -> Option<Error>, acts: seq<Action>)
    ensures var r := Perform(raises, acts);
      |r.1| <= |acts| && r.1 == acts[..|r.1|]
    ensures Perform(raises, acts).0.Ok? <==> forall k :: 0 <= k < |acts| ==> raises(acts[k]).None?
    ensures var r := Perform(raises, acts);
      r.0.Ok? ==> r.1 == acts
    ensures var r := Perform(raises, acts);
      r.0.Err? ==> |r.1| >= 1 && raises(r.1[|r.1| - 1]) == Some(r.0.error)
    ensures var r := Perform(raises, acts);
      forall k :: 0 <= k < |r.1| - 1 ==> raises(r.1[k]).None?
    decreases |acts|
  {
    if acts != [] && raises(acts[0]).None? {
      PerformOutcome(raises, acts[1..]);
      var rest := Perform(raises, acts[1..]);
      assert forall k :: 1 <= k < |acts| ==> acts[k] == acts[1..][k - 1];
      assert [acts[0]] + rest.1 == acts[..|rest.1| + 1];
      forall k | 0 <= k < |rest.1|
        ensures raises(([acts[0]] + rest.1)[k]).None?
      {
        if k > 0 {
          assert ([acts[0]] + rest.1)[k] == rest.1[k - 1];
        }
      }
    }
  }

  /** Nothing raises, so everything is issued. */
  lemma PerformAll(raises: Action -> Option<Error>, acts: seq<Action>)
    requires forall a :: raises(a).None?
    ensures Perform(raises, acts) == (Ok(()), acts)
  {
    PerformOutcome(raises, acts);
    forall k | 0 <= k < |acts|
      ensures raises(acts[k]).None?
    {
      var a := acts[k];
      assert raises(a).None?;
    }
  }

  /** What precedes the search in `select_method`. */
  const OpenList: seq<Action> := [WaitReady(MethodCombo), Expand(MethodCombo), WaitReady(MethodList)]

  /** One attempt of `select_method`, the `k`-th: wait for the combo box,
      expand it, wait for the list, search it, click the item found. A search
      that finds nothing leaves None, and clicking None raises
      AttributeError. */
  function SelectOnce(screen: Screen, name: string, k: nat): (r: (Result<()>, seq<Action>)) {
    var raises := screen.selectRaises(k);
    var (listed, t1) := Perform(raises, OpenList);
    if listed.Err? then (listed, t1)
    else
      var search := FindItem.SearchFrom(screen.rows(k), name, FindItem.DefaultAttempts, 0);
      match search.item
      case None => (Err(NoItemClick), t1 + search.trace)
      case Some(e) =>
        var (clicked, t2) := Perform(raises, [ClickElement(e)]);
        (clicked, t1 + search.trace + t2)
  }

  /** The actions behind a run of the retry wrapper: each attempt's own
      actions, and a pause for each sleep between attempts. */
  function SelectTrace(screen: Screen, name: string, events: seq<Retry.Event>): seq<Action> {
    if events == [] then []
    else
      var first := match events[0]
        case Invoked(k) => SelectOnce(screen, name, k).1
        case Slept(ms) => [Sleep(ms)];
      first + SelectTrace(screen, name, events[1..])
  }

  function SelectAttempt(screen: Screen, name: string): nat -> Result<()> {
    (k: nat) => SelectOnce(screen, name, k).0
  }

  /** How `select_method` ends as the retry wrapper runs it. */
  function SelectRun(screen: Screen, name: string): Retry.Run<()> {
    Retry.RetryFrom(0, SelectAttempts, Retry.DefaultDelayMs, SelectCatch, SelectAttempt(screen, name))
  }

  /** `select_method` as its caller sees it: how it ends, and every action
      of every attempt. */
  function SelectPlan(screen: Screen, name: string): (Result<()>, seq<Action>) {
    var run := SelectRun(screen, name);
    (Settled(run.outcome), SelectTrace(screen, name, run.events))
  }

  /** What the caller sees of a wrapper outcome (the method's value is the
      page itself and is dropped by its callers). */
  function Settled(outcome: Retry.Outcome<()>): Result<()> {
    match outcome
    case Raised(e) => Err(e)
    case _ => Ok(())
  }

  /** A parameter goes into the combo box when it is a bool, into the edit
      field otherwise. */
  function ParamControl(p: Value): (c: Locator)
    ensures c.title == "Parameter Value:" && c.autoId == None
    ensures c.controlType == ComboBox <==> p.BoolValue?
    ensures c.controlType == Edit <==> !p.BoolValue?
  {
    Locator("Parameter Value:", None, if p.BoolValue? then ComboBox else Edit)
  }

  /** What `set_parameters` does for one parameter. */
  function ParamActions(p: Value): seq<Action> {
    [WaitReady(ParamControl(p)), TypeKeys(ParamControl(p), Str(p)), Click(SetValueButton)]
  }

  /** `set_parameters` from parameter `i` on. */
  function ParamsFrom(raises: Action -> Option<Error>, params: seq<Value>, i: nat): (r: (Result<()>, seq<Action>))
    decreases |params| - i
  {
    if i >= |params| then (Ok(()), [])
    else
      var step := Perform(raises, ParamActions(params[i]));
      if step.0.Err? then step
      else
        var rest := ParamsFrom(raises, params, i + 1);
        (rest.0, step.1 + rest.1)
  }

  /** Every parameter in order, when nothing raises. */
  function ParamsPlan(params: seq<Value>): seq<Action> {
    if params == [] then [] else ParamActions(params[0]) + ParamsPlan(params[1..])
  }

  const InvokeActions: seq<Action> := [WaitReady(InvokeButton), Click(InvokeButton)]
  const CloseActions: seq<Action> := [WaitReady(CloseButton), Click(CloseButton)]

  /** `invoke_method`: select, then parameters, then invoke, stopping at the
      first exception. */
  function InvokePlan(screen: Screen, name: string, params: seq<Value>): (Result<()>, seq<Action>) {
    var selected := SelectPlan(screen, name);
    var filled := ParamsFrom(screen.raises, params, 0);
    var invoked := Perform(screen.raises, InvokeActions);
    if selected.0.Err? then selected
    else if filled.0.Err? then (filled.0, selected.1 + filled.1)
    else (invoked.0, selected.1 + filled.1 + invoked.1)
  }

  /** `get_property`: only "return_value" is known; it reads the return
      value field, and that read may raise. Any other name gives None
      without touching the UI. */
  function PropertyRead(screen: Screen, prop: string): (r: (Result<Value>, seq<Action>))
    ensures prop == "return_value" ==> r.1 == [ReadValue(ReturnValue)]
    ensures prop == "return_value" ==>
      (r.0.Ok? <==> screen.raises(ReadValue(ReturnValue)).None?)
    ensures prop == "return_value" && r.0.Ok? ==> r.0.value == StrValue(screen.returnText)
    ensures prop == "return_value" && r.0.Err? ==> r.0.error == screen.raises(ReadValue(ReturnValue)).value
    ensures prop != "return_value" ==> r == (Ok(NoneValue), [])
  {
    if prop == "return_value" then
      var raised := screen.raises(ReadValue(ReturnValue));
      (if raised.Some? then Err(raised.value) else Ok(StrValue(screen.returnText)), [ReadValue(ReturnValue)])
    else (Ok(NoneValue), [])
  }

  class MethodWindowPage {
    const window: Locator
    const wait: WaitStrategy.SmartWait
    /** Every pywinauto call made through this page, oldest first. */
    var actions: seq<Action>

    /** `BasePage.__init__` followed by this page's `_init_controls`, whose
        locators are the constants above. */
    constructor (window: Locator)
      ensures this.window == window && actions == []
      ensures fresh(wait) && wait.baseTimeout == BasePage.PageTimeoutMs
      ensures wait.baseInterval == WaitStrategy.DefaultIntervalMs
    {
      this.window := window;
      wait := new WaitStrategy.SmartWait(BasePage.PageTimeoutMs);
      actions := [];
    }

    /** `select_method`, decorated with the retry wrapper. */
    method SelectMethod(screen: Screen, name: string) returns (r: Result<()>)
      modifies this
      ensures r == SelectPlan(screen, name).0
      ensures actions == old(actions) + SelectPlan(screen, name).1
    {
      var outcome, events := Retry.Wrapper(SelectAttempt(screen, name), SelectAttempts, Retry.DefaultDelayMs, SelectCatch);
      actions := actions + SelectTrace(screen, name, events);
      r := Settled(outcome);
    }

    /** `set_parameters`: one wait, one typing and one "Set Value" click per
        parameter, in order. */
    method SetParameters(screen: Screen, params: seq<Value>) returns (r: Result<()>)
      modifies this
      ensures r == ParamsFrom(screen.raises, params, 0).0
      ensures actions == old(actions) + ParamsFrom(screen.raises, params, 0).1
    {
      var i := 0;
      ghost var spec := ParamsFrom(screen.raises, params, 0);
      ghost var done: seq<Action> := [];
      assert done + spec.1 == spec.1;
      while i < |params|
        invariant i <= |params|
        invariant actions == old(actions) + done
        invariant ParamsSoFar(spec, done, screen.raises, params, i)
        decreases |params| - i
      {
        var (filled, t) := Perform(screen.raises, ParamActions(params[i]));
        ParamsStep(spec, done, screen.raises, params, i);
        Lists.Regroup(old(actions), done, t);
        actions := actions + t;
        done := done + t;
        if filled.Err? {
          return filled;
        }
        i := i + 1;
      }
      ParamsDone(spec, done, screen.raises, params, i);
      return Ok(());
    }

    /** `execute_invoke`. */
    method ExecuteInvoke(screen: Screen) returns (r: Result<()>)
      modifies this
      ensures r == Perform(screen.raises, InvokeActions).0
      ensures actions == old(actions) + Perform(screen.raises, InvokeActions).1
    {
      var (invoked, t) := Perform(screen.raises, InvokeActions);
      actions := actions + t;
      r := invoked;
    }

    /** `invoke_method`: returns the page itself. */
    method InvokeMethod(screen: Screen, name: string, params: seq<Value>) returns (r: Result<MethodWindowPage>)
      modifies this
      ensures r.Ok? ==> r.value == this
      ensures var plan := InvokePlan(screen, name, params);
        && (r.Ok? <==> plan.0.Ok?)
        && (r.Err? ==> r.error == plan.0.error)
        && actions == old(actions) + plan.1
    {
      ghost var before := actions;
      ghost var t1 := SelectPlan(screen, name).1;
      ghost var t2 := ParamsFrom(screen.raises, params, 0).1;
      ghost var t3 := Perform(screen.raises, InvokeActions).1;
      var selected := SelectMethod(screen, name);
      if selected.Err? {
        return Err(selected.error);
      }
      var filled := SetParameters(screen, params);
      Lists.Regroup(before, t1, t2);
      if filled.Err? {
        return Err(filled.error);
      }
      var invoked := ExecuteInvoke(screen);
      Lists.Regroup(before, t1 + t2, t3);
      if invoked.Err? {
        return Err(invoked.error);
      }
      return Ok(this);
    }

    /** `get_state`, inherited from the base page. */
    method GetState(answer: Query -> Answer) returns (r: Result<bool>)
      modifies this
      ensures r == BasePage.WindowState(window, answer).0
      ensures actions == old(actions) + BasePage.WindowState(window, answer).1
    {
      var (state, probes) := BasePage.WindowState(window, answer);
      actions := actions + probes;
      r := state;
    }

    /** `get_property`. */
    method GetProperty(screen: Screen, prop: string) returns (v: Result<Value>)
      modifies this
      ensures v == PropertyRead(screen, prop).0
      ensures actions == old(actions) + PropertyRead(screen, prop).1
    {
      var (value, read) := PropertyRead(screen, prop);
      actions := actions + read;
      v := value;
    }

    /** `close_method`. */
    method CloseMethod(screen: Screen) returns (r: Result<()>)
      modifies this
      ensures r == Perform(screen.raises, CloseActions).0
      ensures actions == old(actions) + Perform(screen.raises, CloseActions).1
    {
      var (closed, t) := Perform(screen.raises, CloseActions);
      actions := actions + t;
      r := closed;
    }
  }

  /** The parameter loop seen part-way: the actions so far, then the rest. */
  ghost predicate ParamsSoFar(spec: (Result<()>, seq<Action>), done: seq<Action>,
                              raises: Action -> Option<Error>, params: seq<Value>, i: nat)
  {
    var rest := ParamsFrom(raises, params, i);
    spec == (rest.0, done + rest.1)
  }

  lemma ParamsStep(spec: (Result<()>, seq<Action>), done: seq<Action>,
                   raises: Action -> Option<Error>, params: seq<Value>, i: nat)
    requires i < |params|
    requires ParamsSoFar(spec, done, raises, params, i)
    ensures var (r, t) := Perform(raises, ParamActions(params[i]));
      && (r.Err? ==> spec == (r, done + t))
      && (r.Ok? ==> ParamsSoFar(spec, done + t, raises, params, i + 1))
  {
    var (r, t) := Perform(raises, ParamActions(params[i]));
    if r.Ok? {
      var rest := ParamsFrom(raises, params, i + 1);
      assert done + (t + rest.1) == done + t + rest.1;
    }
  }

  lemma ParamsDone(spec: (Result<()>, seq<Action>), done: seq<Action>,
                   raises: Action -> Option<Error>, params: seq<Value>, i: nat)
    requires i >= |params|
    requires ParamsSoFar(spec, done, raises, params, i)
    ensures spec == (Ok(()), done)
  {
    assert done + [] == done;
  }

  /** Parameter `k` occupies actions 3k, 3k+1 and 3k+2 of the plan: its
      wait, its typing of `str(param)` into the bool-or-not field, and the
      "Set Value" click. */
  lemma {:induction false} ParamsShape(params: seq<Value>)
    ensures |ParamsPlan(params)| == 3 * |params|
    ensures forall k :: 0 <= k < |params| ==> ParamsPlan(params)[3 * k..3 * k + 3] == ParamActions(params[k])
    decreases |params|
  {
    if params != [] {
      ParamsShape(params[1..]);
      var head := ParamActions(params[0]);
      var tail := ParamsPlan(params[1..]);
      forall k | 0 <= k < |params|
        ensures ParamsPlan(params)[3 * k..3 * k + 3] == ParamActions(params[k])
      {
        if k > 0 {
          assert params[k] == params[1..][k - 1];
          assert (head + tail)[3 * k..3 * k + 3] == tail[3 * (k - 1)..3 * (k - 1) + 3];
        }
      }
    }
  }

  /** When no action raises, `set_parameters` issues the whole plan and
      succeeds; an empty parameter list issues nothing. */
  lemma {:induction false} ParamsAllSet(raises: Action -> Option<Error>, params: seq<Value>, i: nat)
    requires i <= |params|
    requires forall a :: raises(a).None?
    ensures ParamsFrom(raises, params, i) == (Ok(()), ParamsPlan(params[i..]))
    decreases |params| - i
  {
    if i < |params| {
      ParamsAllSet(raises, params, i + 1);
      PerformAll(raises, ParamActions(params[i]));
      assert params[i..][1..] == params[i + 1..];
    }
  }

  predicate IsSetValueClick(a: Action) {
    a == Click(SetValueButton)
  }

  predicate IsTyping(a: Action) {
    a.TypeKeys?
  }

  /** One "Set Value" click and one typing per parameter. */
  lemma {:induction false} ParamsCounts(params: seq<Value>)
    ensures Count(ParamsPlan(params), IsSetValueClick) == |params|
    ensures Count(ParamsPlan(params), IsTyping) == |params|
    decreases |params|
  {
    if params != [] {
      var step := ParamActions(params[0]);
      ParamsCounts(params[1..]);
      CountAppend(step, ParamsPlan(params[1..]), IsSetValueClick);
      CountAppend(step, ParamsPlan(params[1..]), IsTyping);
      assert step[1..][1..][1..] == [];
      assert Count(step[1..][1..], IsSetValueClick) == 1 && Count(step[1..][1..], IsTyping) == 0;
      assert Count(step[1..], IsSetValueClick) == 1 && Count(step[1..], IsTyping) == 1;
    }
  }

  /** Every typing is issued right after the wait on the same control; the
      "Set Value" button, in contrast, is clicked without any wait on it. */
  lemma ParamsWaits(params: seq<Value>)
    ensures var plan := ParamsPlan(params);
      forall j :: 0 <= j < |plan| && plan[j].TypeKeys? ==> j >= 1 && plan[j - 1] == WaitReady(plan[j].target)
    ensures WaitReady(SetValueButton) !in ParamsPlan(params)
  {
    var plan := ParamsPlan(params);
    ParamsShape(params);
    forall j | 0 <= j < |plan|
      ensures plan[j].TypeKeys? ==> j >= 1 && plan[j - 1] == WaitReady(plan[j].target)
      ensures plan[j] != WaitReady(SetValueButton)
    {
      var k := j / 3;
      assert plan[3 * k..3 * k + 3] == ParamActions(params[k]);
      assert plan[j] == ParamActions(params[k])[j - 3 * k];
      if j - 3 * k == 1 {
        assert plan[j - 1] == ParamActions(params[k])[0];
      }
    }
  }

  /** A method that is not in the list is not searched for again: the
      search comes back empty, clicking None raises AttributeError, which
      the retry does not catch, so there is exactly one attempt. */
  lemma MissingItemNotRetried(screen: Screen, name: string)
    requires forall a :: screen.selectRaises(0)(a).None?
    requires forall p :: 0 <= p < FindItem.DefaultAttempts ==> screen.rows(0)(p).None?
    ensures SelectRun(screen, name).events == [Retry.Invoked(0)]
    ensures SelectPlan(screen, name)
         == (Err(NoItemClick), OpenList + FindItem.Misses(name, FindItem.DefaultAttempts))
  {
    var raises := screen.selectRaises(0);
    PerformAll(raises, OpenList);
    FindItem.SearchOutcome(screen.rows(0), name, FindItem.DefaultAttempts, 0);
    var search := FindItem.SearchFrom(screen.rows(0), name, FindItem.DefaultAttempts, 0);
    assert search.item.None?;
    assert search.trace == FindItem.Misses(name, FindItem.DefaultAttempts) + [];
    assert SelectOnce(screen, name, 0) == (Err(NoItemClick), OpenList + search.trace);
    Retry.RetryStep(0, SelectAttempts, Retry.DefaultDelayMs, SelectCatch, SelectAttempt(screen, name));
    assert SelectRun(screen, name) == Retry.Run(Retry.Raised(NoItemClick), [Retry.Invoked(0)]);
    assert SelectTrace(screen, name, [Retry.Invoked(0)]) == SelectOnce(screen, name, 0).1 + [];
    var misses := FindItem.Misses(name, FindItem.DefaultAttempts);
    assert misses + [] == misses;
    assert SelectOnce(screen, name, 0).1 + [] == OpenList + misses;
  }

  /** A selection that finds the method on page `p` of the first attempt
      waits for the combo box, expands it, waits for the list, pages `p`
      times, looks the item up and clicks it. */
  lemma SelectedFirstTime(screen: Screen, name: string, p: nat)
    requires forall a :: screen.selectRaises(0)(a).None?
    requires p < FindItem.DefaultAttempts && screen.rows(0)(p).Some?
    requires forall q :: 0 <= q < p ==> screen.rows(0)(q).None?
    ensures SelectPlan(screen, name)
         == (Ok(()), OpenList + FindItem.Misses(name, p)
                     + [FindItem.LookupAction(name), ClickElement(screen.rows(0)(p).value)])
  {
    var e := screen.rows(0)(p).value;
    var raises := screen.selectRaises(0);
    PerformAll(raises, OpenList);
    PerformAll(raises, [ClickElement(e)]);
    FindItem.SearchOutcome(screen.rows(0), name, FindItem.DefaultAttempts, 0);
    var search := FindItem.SearchFrom(screen.rows(0), name, FindItem.DefaultAttempts, 0);
    assert search.item.Some?;
    assert search.missed == p;
    assert search.item == Some(e);
    assert SelectOnce(screen, name, 0) == (Ok(()), OpenList + search.trace + [ClickElement(e)]);
    Retry.RetryStep(0, SelectAttempts, Retry.DefaultDelayMs, SelectCatch, SelectAttempt(screen, name));
    assert SelectRun(screen, name) == Retry.Run(Retry.Returned(()), [Retry.Invoked(0)]);
    assert SelectTrace(screen, name, [Retry.Invoked(0)]) == SelectOnce(screen, name, 0).1 + [];
    var misses := FindItem.Misses(name, p);
    var found := [FindItem.LookupAction(name), ClickElement(e)];
    assert search.trace == misses + [FindItem.LookupAction(name)];
    assert OpenList + (misses + [FindItem.LookupAction(name)]) + [ClickElement(e)] + [] == OpenList + misses + found;
  }

  /** If every attempt fails with ElementNotFoundError, the selection is
      tried five times, one second apart, and the last error surfaces. */
  lemma SelectGivesUp(screen: Screen, name: string)
    requires forall k :: 0 <= k < SelectAttempts ==>
      SelectOnce(screen, name, k).0.Err? && SelectOnce(screen, name, k).0.error.kind == ElementNotFoundError
    ensures SelectRun(screen, name)
         == Retry.Run(Retry.Raised(SelectOnce(screen, name, 4).0.error),
                      Retry.Backoff(0, 4, Retry.DefaultDelayMs) + [Retry.Invoked(4)])
  {
    Retry.ExhaustsBudget(0, SelectAttempts, Retry.DefaultDelayMs, SelectCatch, SelectAttempt(screen, name));
  }

  /** When every step succeeds, `invoke_method` selects, then sets every
      parameter, then waits for and clicks "Invoke", in that order. */
  lemma InvokeInOrder(screen: Screen, name: string, params: seq<Value>)
    requires SelectPlan(screen, name).0.Ok?
    requires forall a :: screen.raises(a).None?
    ensures InvokePlan(screen, name, params)
         == (Ok(()), SelectPlan(screen, name).1 + ParamsPlan(params) + InvokeActions)
  {
    ParamsAllSet(screen.raises, params, 0);
    assert params[0..] == params;
    PerformAll(screen.raises, InvokeActions);
    assert ParamsFrom(screen.raises, params, 0) == (Ok(()), ParamsPlan(params));
  }
}
