/** `TestTLVSuite.test_case`: run one independent case against the method
    dialog. Each step checks that the dialog is up (reopening it from the
    main window if not), invokes the step's method with its parameters,
    compares each validated property with its expected value as strings,
    taking a screenshot before every comparison, and optionally closes the
    dialog and photographs the main window. The first exception, a failed
    comparison included, ends the case.

    The case writes the Allure report as a list of events; the method
    dialog's page object records its own pywinauto calls. A `Session` says
    what the application does during each step. */
module TestSuite {
  import opened Common
  import opened Strings
  import opened Ui
  import BasePage
  import MethodWindowPage
  import Screenshot
  import Lists

  datatype Validation = Validation(property: string, expected: Value)

  /** A step; `params` and `close_after` may be missing. */
  datatype Step = Step(methodName: string, params: Option<seq<Value>>, validations: seq<Validation>,
                       closeAfter: Option<Value>)

  /** A loaded case: its `id`, its `_meta.path`, and the optional
      `description` and `category`. */
  datatype TestCase = TestCase(id: Value, path: string, description: Option<Value>, category: Option<Value>,
                               steps: seq<Step>)

  /** What the case adds to the report, in order. */
  datatype Event =
    | Described(text: string)                          // allure.dynamic.description
    | Tagged(tag: string)                              // allure.dynamic.tag
    | StepOpened(title: string)                        // with allure.step(title)
    | Attached(attachment: Attachment)                 // allure.attach
    | Reopened                                         // app.main_page.open_method_window()
    | Captured(window: Locator, attachment: Attachment) // take_screenshot(window, ...)

  /** The application's behaviour during step `i`: the answers to
      `get_state`'s queries, whether reopening the dialog raises, the
      dialog's behaviour, and the camera for screenshot `j` of the step
      (the validations' screenshots first, then the close screenshot). */
  datatype Session = Session(
    state: nat -> Query -> Answer,
    reopenRaises: nat -> Option<Error>,
    screens: nat -> MethodWindowPage.Screen,
    cameras: nat -> nat -> Screenshot.Camera)

  /** How a case or a part of it ends: every assertion held, a validation's
      assertion failed, or some other exception surfaced. */
  datatype Verdict = Passed | Failed(error: Error) | Broken(error: Error)

  /** A part of a case: how it ends, the report events it adds and the
      pywinauto calls it makes through the method dialog's page. */
  datatype Run = Run(verdict: Verdict, evidence: seq<Event>, actions: seq<Action>)

  const Uncategorised: string := "未分类"
  const ParamsName: string := "调用参数"
  const DetailsName: string := "验证详情"
  const CheckTitle: string := "✓ 验证结果"
  const CloseTitle: string := "验证画面变动"

  /** `step.get('params', [])`. */
  function ParamsOf(step: Step): seq<Value> {
    if step.params.Some? then step.params.value else []
  }

  /** `step.get('close_after', False)`, as an `if` reads it. */
  predicate ClosesAfter(step: Step) {
    step.closeAfter.Some? && Truthy(step.closeAfter.value)
  }

  /** The step title numbers steps from 1. */
  function StepTitle(i: nat, methodName: string): string {
    "步骤 " + NatToString(i + 1) + ": " + methodName
  }

  /** The screenshot suffixes number steps from 0. */
  function ValidationSuffix(id: Value, i: nat): string {
    Str(id) + "_step" + NatToString(i) + "_validation"
  }

  function CloseSuffix(id: Value, i: nat): string {
    Str(id) + "_" + NatToString(i) + "_xdg"
  }

  function Strs(vs: seq<Value>): (r: seq<string>)
    ensures |r| == |vs| && forall k :: 0 <= k < |vs| ==> r[k] == Str(vs[k])
  {
    if vs == [] then [] else [Str(vs[0])] + Strs(vs[1..])
  }

  function ParamsText(methodName: string, params: seq<Value>): string {
    "Method: " + methodName + "\nParams: [" + Join(Strs(params), ", ") + "]"
  }

  function DetailsText(expected: Value, actual: Value): string {
    "预期值: " + Str(expected) + "\n实际值: " + Str(actual)
  }

  /** The AssertionError of a failed comparison. */
  function Mismatch(v: Validation, actual: Value): Error {
    Error(AssertionError, "属性验证失败: " + v.property + "\n预期: " + Str(v.expected) + "\n实际: " + Str(actual))
  }

  function CaseText(tc: TestCase): string {
    "用例路径: " + tc.path + "\n用例描述: " + (if tc.description.Some? then Str(tc.description.value) else "")
  }

  function CaseTag(tc: TestCase): string {
    if tc.category.Some? then Str(tc.category.value) else Uncategorised
  }

  /** `a` followed by `b`, unless `a` did not pass. */
  function Then(a: Run, b: Run): Run {
    if !a.verdict.Passed? then a else Run(b.verdict, a.evidence + b.evidence, a.actions + b.actions)
  }

  /** Opening step `i`: its report step, then `get_state` on the dialog and,
      when that is False, `open_method_window`, whose result is dropped. */
  function Opening(step: Step, i: nat, session: Session, window: Locator): Run {
    var (state, probes) := BasePage.WindowState(window, session.state(i));
    var heading := [StepOpened(StepTitle(i, step.methodName))];
    if state.Err? then Run(Broken(state.error), heading, probes)
    else if state.value then Run(Passed, heading, probes)
    else
      var reopened := session.reopenRaises(i);
      Run(if reopened.Some? then Broken(reopened.value) else Passed, heading + [Reopened], probes)
  }

  /** `invoke_method`, then the attachment of the call's parameters. */
  function Invocation(step: Step, i: nat, session: Session): Run {
    var params := ParamsOf(step);
    var invoked := MethodWindowPage.InvokePlan(session.screens(i), step.methodName, params);
    if invoked.0.Err? then Run(Broken(invoked.0.error), [], invoked.1)
    else Run(Passed, [Attached(Text(ParamsName, ParamsText(step.methodName, params)))], invoked.1)
  }

  /** Validation `v`: read the property, attach both values, take the
      screenshot, then assert that the two print the same. A read that
      raises ends the validation before its report step opens. */
  function CheckOne(id: Value, i: nat, v: Validation, screen: MethodWindowPage.Screen,
                    camera: Screenshot.Camera, window: Locator): Run {
    var (got, read) := MethodWindowPage.PropertyRead(screen, v.property);
    if got.Err? then Run(Broken(got.error), [], read)
    else
      var actual := got.value;
      var (shot, entry) := Screenshot.Take(Some(ValidationSuffix(id, i)), Screenshot.DefaultDir, camera);
      var evidence := [StepOpened("验证属性 " + v.property), Attached(Text(DetailsName, DetailsText(v.expected, actual))),
                       Captured(window, entry)];
      if shot.Err? then Run(Broken(shot.error), evidence, read)
      else if Str(actual) == Str(v.expected) then Run(Passed, evidence, read)
      else Run(Failed(Mismatch(v, actual)), evidence, read)
  }

  /** `head` followed by each of `parts` in order, stopping after the first
      one that does not pass. */
  function Sequence(head: Run, parts: seq<Run>): Run
    decreases |parts|
  {
    if parts == [] then head else Then(Sequence(head, parts[..|parts| - 1]), parts[|parts| - 1])
  }

  /** Every validation of step `i`, one run each. */
  function CheckRuns(id: Value, i: nat, vals: seq<Validation>, screen: MethodWindowPage.Screen,
                     cameras: nat -> Screenshot.Camera, window: Locator): (r: seq<Run>)
    ensures |r| == |vals|
  {
    seq(|vals|, j requires 0 <= j < |vals| => CheckOne(id, i, vals[j], screen, cameras(j), window))
  }

  const CheckHead: Run := Run(Passed, [StepOpened(CheckTitle)], [])

  /** The validations of step `i`, inside the report step that groups them. */
  function Checks(id: Value, i: nat, vals: seq<Validation>, screen: MethodWindowPage.Screen,
                  cameras: nat -> Screenshot.Camera, window: Locator): Run {
    Sequence(CheckHead, CheckRuns(id, i, vals, screen, cameras, window))
  }

  /** The `close_after` part of step `i`: close the dialog and photograph
      the main window; nothing when the flag is missing or false. */
  function Closing(step: Step, id: Value, i: nat, session: Session, mainWindow: Locator): Run {
    if !ClosesAfter(step) then Run(Passed, [], [])
    else
      var (closed, t) := MethodWindowPage.Perform(session.screens(i).raises, MethodWindowPage.CloseActions);
      var heading := [StepOpened(CloseTitle)];
      if closed.Err? then Run(Broken(closed.error), heading, t)
      else
        var (shot, entry) := Screenshot.Take(Some(CloseSuffix(id, i)), Screenshot.DefaultDir,
                                             session.cameras(i)(|step.validations|));
        Run(if shot.Err? then Broken(shot.error) else Passed, heading + [Captured(mainWindow, entry)], t)
  }

  /** Step `i` of the case. */
  function StepRun(tc: TestCase, i: nat, session: Session, window: Locator, mainWindow: Locator): Run
    requires i < |tc.steps|
  {
    var step := tc.steps[i];
    Then(Then(Then(Opening(step, i, session, window), Invocation(step, i, session)),
              Checks(tc.id, i, step.validations, session.screens(i), session.cameras(i), window)),
         Closing(step, tc.id, i, session, mainWindow))
  }

  /** Every step of the case, one run each. */
  function StepRuns(tc: TestCase, session: Session, window: Locator, mainWindow: Locator): (r: seq<Run>)
    ensures |r| == |tc.steps|
  {
    seq(|tc.steps|, i requires 0 <= i < |tc.steps| => StepRun(tc, i, session, window, mainWindow))
  }

  function Header(tc: TestCase): Run {
    Run(Passed, [Described(CaseText(tc)), Tagged(CaseTag(tc))], [])
  }

  /** The whole case: the report header, then the steps in order. */
  function CaseRun(tc: TestCase, session: Session, window: Locator, mainWindow: Locator): Run {
    Sequence(Header(tc), StepRuns(tc, session, window, mainWindow))
  }

  method OpenStep(page: MethodWindowPage.MethodWindowPage, step: Step, i: nat, session: Session)
    returns (v: Verdict, ev: seq<Event>)
    modifies page
    ensures var s := Opening(step, i, session, page.window);
      v == s.verdict && ev == s.evidence && page.actions == old(page.actions) + s.actions
  {
    ev := [StepOpened(StepTitle(i, step.methodName))];
    var state := page.GetState(session.state(i));
    if state.Err? {
      return Broken(state.error), ev;
    }
    v := Passed;
    if !state.value {
      ev := ev + [Reopened];
      var reopened := session.reopenRaises(i);
      if reopened.Some? {
        v := Broken(reopened.value);
      }
    }
  }

  method InvokeStep(page: MethodWindowPage.MethodWindowPage, step: Step, i: nat, session: Session)
    returns (v: Verdict, ev: seq<Event>)
    modifies page
    ensures var s := Invocation(step, i, session);
      v == s.verdict && ev == s.evidence && page.actions == old(page.actions) + s.actions
  {
    var params := ParamsOf(step);
    var invoked := page.InvokeMethod(session.screens(i), step.methodName, params);
    if invoked.Err? {
      return Broken(invoked.error), [];
    }
    return Passed, [Attached(Text(ParamsName, ParamsText(step.methodName, params)))];
  }

  /** One validation of step `i`. */
  method CheckStep(page: MethodWindowPage.MethodWindowPage, id: Value, i: nat, val: Validation,
                   screen: MethodWindowPage.Screen, camera: Screenshot.Camera)
    returns (v: Verdict, ev: seq<Event>)
    modifies page
    ensures var s := CheckOne(id, i, val, screen, camera, page.window);
      v == s.verdict && ev == s.evidence && page.actions == old(page.actions) + s.actions
  {
    var got := page.GetProperty(screen, val.property);
    if got.Err? {
      return Broken(got.error), [];
    }
    var actual := got.value;
    var (shot, entry) := Screenshot.Take(Some(ValidationSuffix(id, i)), Screenshot.DefaultDir, camera);
    ev := [StepOpened("验证属性 " + val.property),
           Attached(Text(DetailsName, DetailsText(val.expected, actual))),
           Captured(page.window, entry)];
    if shot.Err? {
      v := Broken(shot.error);
    } else if Str(actual) != Str(val.expected) {
      v := Failed(Mismatch(val, actual));
    } else {
      v := Passed;
    }
  }

  /** The validation loop of step `i`. */
  method Validate(page: MethodWindowPage.MethodWindowPage, id: Value, i: nat, vals: seq<Validation>,
                  screen: MethodWindowPage.Screen, cameras: nat -> Screenshot.Camera)
    returns (v: Verdict, ev: seq<Event>)
    modifies page
    ensures var s := Checks(id, i, vals, screen, cameras, page.window);
      v == s.verdict && ev == s.evidence && page.actions == old(page.actions) + s.actions
  {
    ghost var a0 := page.actions;
    ghost var runs := CheckRuns(id, i, vals, screen, cameras, page.window);
    ghost var acc := CheckHead;
    ev := [StepOpened(CheckTitle)];
    var j := 0;
    assert runs[..0] == [];
    while j < |vals|
      invariant j <= |vals|
      invariant acc == Sequence(CheckHead, runs[..j])
      invariant acc.verdict == Passed && acc.evidence == ev
      invariant page.actions == a0 + acc.actions
      decreases |vals| - j
    {
      ghost var part := runs[j];
      assert part == CheckOne(id, i, vals[j], screen, cameras(j), page.window);
      SequenceNext(CheckHead, runs, j, acc);
      var cv, cev := CheckStep(page, id, i, vals[j], screen, cameras(j));
      Lists.Regroup(a0, acc.actions, part.actions);
      acc := Then(acc, part);
      ev := ev + cev;
      if !cv.Passed? {
        return cv, ev;
      }
      j := j + 1;
    }
    assert runs[..j] == runs;
    v := Passed;
  }

  method CloseStep(page: MethodWindowPage.MethodWindowPage, step: Step, id: Value, i: nat, session: Session,
                   mainWindow: Locator)
    returns (v: Verdict, ev: seq<Event>)
    modifies page
    ensures var s := Closing(step, id, i, session, mainWindow);
      v == s.verdict && ev == s.evidence && page.actions == old(page.actions) + s.actions
  {
    if !ClosesAfter(step) {
      return Passed, [];
    }
    ev := [StepOpened(CloseTitle)];
    var closed := page.CloseMethod(session.screens(i));
    if closed.Err? {
      return Broken(closed.error), ev;
    }
    var (shot, entry) := Screenshot.Take(Some(CloseSuffix(id, i)), Screenshot.DefaultDir,
                                         session.cameras(i)(|step.validations|));
    ev := ev + [Captured(mainWindow, entry)];
    v := if shot.Err? then Broken(shot.error) else Passed;
  }

  /** One iteration of the step loop. */
  method RunStep(page: MethodWindowPage.MethodWindowPage, tc: TestCase, i: nat, session: Session,
                 mainWindow: Locator)
    returns (v: Verdict, ev: seq<Event>)
    requires i < |tc.steps|
    modifies page
    ensures var s := StepRun(tc, i, session, page.window, mainWindow);
      v == s.verdict && ev == s.evidence && page.actions == old(page.actions) + s.actions
  {
    var step := tc.steps[i];
    ghost var a0 := page.actions;
    ghost var p1 := Opening(step, i, session, page.window);
    ghost var p2 := Invocation(step, i, session);
    ghost var p3 := Checks(tc.id, i, step.validations, session.screens(i), session.cameras(i), page.window);
    ghost var p4 := Closing(step, tc.id, i, session, mainWindow);
    v, ev := OpenStep(page, step, i, session);
    if !v.Passed? {
      return;
    }
    var v2, ev2 := InvokeStep(page, step, i, session);
    Lists.Regroup(a0, p1.actions, p2.actions);
    ev := ev + ev2;
    if !v2.Passed? {
      return v2, ev;
    }
    var v3, ev3 := Validate(page, tc.id, i, step.validations, session.screens(i), session.cameras(i));
    Lists.Regroup(a0, p1.actions + p2.actions, p3.actions);
    ev := ev + ev3;
    if !v3.Passed? {
      return v3, ev;
    }
    var v4, ev4 := CloseStep(page, step, tc.id, i, session, mainWindow);
    Lists.Regroup(a0, p1.actions + p2.actions + p3.actions, p4.actions);
    ev := ev + ev4;
    v := v4;
  }

  /** `test_case`: the report header, then the steps in order until one
      does not pass. */
  method RunCase(page: MethodWindowPage.MethodWindowPage, tc: TestCase, session: Session, mainWindow: Locator)
    returns (v: Verdict, ev: seq<Event>)
    modifies page
    ensures var s := CaseRun(tc, session, page.window, mainWindow);
      v == s.verdict && ev == s.evidence && page.actions == old(page.actions) + s.actions
  {
    ghost var a0 := page.actions;
    ghost var runs := StepRuns(tc, session, page.window, mainWindow);
    ghost var done: seq<Action> := [];
    ev := [Described(CaseText(tc)), Tagged(CaseTag(tc))];
    var i := 0;
    while i < |tc.steps|
      invariant i <= |tc.steps|
      invariant Sequence(Header(tc), runs[..i]).verdict == Passed
      invariant Sequence(Header(tc), runs[..i]).evidence == ev
      invariant Sequence(Header(tc), runs[..i]).actions == done
      invariant page.actions == a0 + done
      decreases |tc.steps| - i
    {
      SequenceStep(Header(tc), runs, i);
      var sv, sev := RunStep(page, tc, i, session, mainWindow);
      ev := ev + sev;
      Lists.Regroup(a0, done, runs[i].actions);
      done := done + runs[i].actions;
      if !sv.Passed? {
        SequenceStops(Header(tc), runs, i + 1);
        return sv, ev;
      }
      i := i + 1;
    }
    assert runs[..i] == runs;
    v := Passed;
  }

  /** Appending to a trace that extends `a0` by `done` extends it by
      `done + t`. */
  /** The fold one part further on. */
  lemma SequenceStep(head: Run, parts: seq<Run>, i: nat)
    requires i < |parts|
    ensures Sequence(head, parts[..i + 1]) == Then(Sequence(head, parts[..i]), parts[i])
  {
    assert parts[..i + 1][..i] == parts[..i];
  }

  /** One more part after a passing prefix: the report and the actions
      grow by the part's, and a part that does not pass ends the sequence. */
  lemma SequenceNext(head: Run, parts: seq<Run>, i: nat, acc: Run)
    requires i < |parts| && acc == Sequence(head, parts[..i]) && acc.verdict.Passed?
    ensures Sequence(head, parts[..i + 1]) == Then(acc, parts[i])
    ensures Then(acc, parts[i]) == Run(parts[i].verdict, acc.evidence + parts[i].evidence, acc.actions + parts[i].actions)
    ensures !parts[i].verdict.Passed? ==> Sequence(head, parts) == Then(acc, parts[i])
  {
    SequenceStep(head, parts, i);
    if !parts[i].verdict.Passed? {
      SequenceStops(head, parts, i + 1);
    }
  }

  /** Once a prefix has not passed, the parts after it add nothing: the
      first failure ends the whole sequence. */
  lemma {:induction false} SequenceStops(head: Run, parts: seq<Run>, m: nat)
    requires m <= |parts|
    requires !Sequence(head, parts[..m]).verdict.Passed?
    ensures Sequence(head, parts) == Sequence(head, parts[..m])
    decreases |parts|
  {
    if m < |parts| {
      var init := parts[..|parts| - 1];
      assert init[..m] == parts[..m];
      SequenceStops(head, init, m);
    } else {
      assert parts[..m] == parts;
    }
  }

  /** A screenshot that made it into the report. */
  predicate IsShot(e: Event) {
    e.Captured? && e.attachment.Png?
  }

  function Shots(ev: seq<Event>): nat {
    if ev == [] then 0 else (if IsShot(ev[0]) then 1 else 0) + Shots(ev[1..])
  }

  lemma {:induction false} ShotsAppend(a: seq<Event>, b: seq<Event>)
    ensures Shots(a + b) == Shots(a) + Shots(b)
    decreases |a|
  {
    if a != [] {
      ShotsAppend(a[1..], b);
      assert (a + b)[1..] == a[1..] + b;
    } else {
      assert a + b == b;
    }
  }

  /** The screenshots among three events. */
  lemma ShotsOfThree(x: Event, y: Event, z: Event)
    ensures Shots([x, y, z]) == (if IsShot(x) then 1 else 0) + (if IsShot(y) then 1 else 0) + (if IsShot(z) then 1 else 0)
  {
    assert [z][1..] == [];
    assert Shots([z]) == (if IsShot(z) then 1 else 0);
    assert [y, z][1..] == [z];
    assert Shots([y, z]) == (if IsShot(y) then 1 else 0) + Shots([z]);
    assert [x, y, z][1..] == [y, z];
  }

  /** The screenshots of each part, added up. */
  function PartShots(parts: seq<Run>): nat {
    if parts == [] then 0 else PartShots(parts[..|parts| - 1]) + Shots(parts[|parts| - 1].evidence)
  }

  /** A sequence passes exactly when its head and all its parts pass, and
      then its report holds the head's screenshots and every part's. */
  lemma {:induction false} SequencePasses(head: Run, parts: seq<Run>)
    ensures Sequence(head, parts).verdict.Passed?
        <==> head.verdict.Passed? && forall k :: 0 <= k < |parts| ==> parts[k].verdict.Passed?
    ensures Sequence(head, parts).verdict.Passed?
        ==> Shots(Sequence(head, parts).evidence) == Shots(head.evidence) + PartShots(parts)
    decreases |parts|
  {
    if parts != [] {
      var init := parts[..|parts| - 1];
      var last := parts[|parts| - 1];
      SequencePasses(head, init);
      assert forall k :: 0 <= k < |init| ==> init[k] == parts[k];
      if Sequence(head, init).verdict.Passed? {
        ShotsAppend(Sequence(head, init).evidence, last.evidence);
      }
    }
  }

  /** The report of a run ends with a screenshot of `window`. */
  predicate EndsWithShot(r: Run, window: Locator) {
    |r.evidence| > 0 && IsShot(r.evidence[|r.evidence| - 1]) && r.evidence[|r.evidence| - 1].window == window
  }

  /** If every part that fails an assertion ends its report with a
      screenshot of `window`, so does the sequence. */
  lemma {:induction false} SequenceFailed(head: Run, parts: seq<Run>, window: Locator)
    requires !head.verdict.Failed?
    requires forall k :: 0 <= k < |parts| && parts[k].verdict.Failed? ==> EndsWithShot(parts[k], window)
    ensures Sequence(head, parts).verdict.Failed? ==> EndsWithShot(Sequence(head, parts), window)
    decreases |parts|
  {
    if parts != [] {
      var init := parts[..|parts| - 1];
      assert forall k :: 0 <= k < |init| ==> init[k] == parts[k];
      SequenceFailed(head, init, window);
    }
  }

  /** A validation passes exactly when its property is read, its
      screenshot is taken and the property prints as the expected value. A
      read that raises is the verdict and leaves no report evidence; a
      failed one reports an AssertionError after its screenshot of the
      dialog. The property is read only once. */
  lemma CheckVerdict(id: Value, i: nat, v: Validation, screen: MethodWindowPage.Screen,
                     camera: Screenshot.Camera, window: Locator)
    ensures var r := CheckOne(id, i, v, screen, camera, window);
      var got := MethodWindowPage.PropertyRead(screen, v.property).0;
      && (r.verdict.Passed? <==> got.Ok? && camera.failure.None? && Str(got.value) == Str(v.expected))
      && (got.Err? ==> r.verdict == Broken(got.error) && r.evidence == [])
      && (r.verdict.Failed? ==> r.verdict.error.kind == AssertionError && EndsWithShot(r, window))
      && (r.verdict.Broken? && got.Ok? ==> r.verdict.error == camera.failure.value)
      && (r.verdict.Passed? ==> Shots(r.evidence) == 1)
      && |r.actions| <= 1
  {
    var got := MethodWindowPage.PropertyRead(screen, v.property).0;
    if got.Ok? {
      var (shot, entry) := Screenshot.Take(Some(ValidationSuffix(id, i)), Screenshot.DefaultDir, camera);
      ShotsOfThree(StepOpened("验证属性 " + v.property), Attached(Text(DetailsName, DetailsText(v.expected, got.value))),
                   Captured(window, entry));
    }
  }

  /** Validation `j` of `vals` reads its property, and it prints as the
      expected value. */
  predicate Prints(j: nat, vals: seq<Validation>, screen: MethodWindowPage.Screen)
    requires j < |vals|
  {
    var got := MethodWindowPage.PropertyRead(screen, vals[j].property).0;
    got.Ok? && Str(got.value) == Str(vals[j].expected)
  }

  /** Validation `j` of `vals` succeeds: its property is read, its
      screenshot is taken and the property prints as the expected value. */
  predicate Holds(j: nat, vals: seq<Validation>, screen: MethodWindowPage.Screen,
                  cameras: nat -> Screenshot.Camera)
    requires j < |vals|
  {
    cameras(j).failure.None? && Prints(j, vals, screen)
  }

  /** CheckVerdict for every validation run of a step. */
  lemma CheckRunsFacts(id: Value, i: nat, vals: seq<Validation>, screen: MethodWindowPage.Screen,
                       cameras: nat -> Screenshot.Camera, window: Locator)
    ensures var runs := CheckRuns(id, i, vals, screen, cameras, window);
      forall j :: 0 <= j < |vals| ==>
        && (runs[j].verdict.Passed? <==> Holds(j, vals, screen, cameras))
        && (runs[j].verdict.Passed? ==> Shots(runs[j].evidence) == 1)
        && (runs[j].verdict.Failed? ==> EndsWithShot(runs[j], window))
  {
    var runs := CheckRuns(id, i, vals, screen, cameras, window);
    forall j | 0 <= j < |vals|
      ensures && (runs[j].verdict.Passed? <==> Holds(j, vals, screen, cameras))
              && (runs[j].verdict.Passed? ==> Shots(runs[j].evidence) == 1)
              && (runs[j].verdict.Failed? ==> EndsWithShot(runs[j], window))
    {
      CheckVerdict(id, i, vals[j], screen, cameras(j), window);
    }
  }

  /** All validations of a step pass exactly when every screenshot is taken
      and every property prints as expected; then there is one screenshot
      per validation. */
  lemma ChecksPass(id: Value, i: nat, vals: seq<Validation>, screen: MethodWindowPage.Screen,
                   cameras: nat -> Screenshot.Camera, window: Locator)
    ensures var r := Checks(id, i, vals, screen, cameras, window);
      && (r.verdict.Passed? <==> forall j :: 0 <= j < |vals| ==> Holds(j, vals, screen, cameras))
      && (r.verdict.Passed? ==> forall j :: 0 <= j < |vals| ==> Prints(j, vals, screen))
      && (r.verdict.Passed? ==> Shots(r.evidence) == |vals|)
      && (r.verdict.Failed? ==> EndsWithShot(r, window))
  {
    var runs := CheckRuns(id, i, vals, screen, cameras, window);
    CheckRunsFacts(id, i, vals, screen, cameras, window);
    SequencePasses(CheckHead, runs);
    SequenceFailed(CheckHead, runs, window);
    if Sequence(CheckHead, runs).verdict.Passed? {
      PartShotsOnes(runs);
      assert Shots(CheckHead.evidence) == 0;
      forall j | 0 <= j < |vals|
        ensures Prints(j, vals, screen)
      {
        assert runs[j].verdict.Passed?;
      }
    }
  }

  lemma {:induction false} PartShotsOnes(parts: seq<Run>)
    requires forall k :: 0 <= k < |parts| ==> Shots(parts[k].evidence) == 1
    ensures PartShots(parts) == |parts|
    decreases |parts|
  {
    if parts != [] {
      PartShotsOnes(parts[..|parts| - 1]);
    }
  }

  /** Every validation of `step` printed as expected. */
  predicate Matched(step: Step, screen: MethodWindowPage.Screen) {
    forall j :: 0 <= j < |step.validations| ==> Prints(j, step.validations, screen)
  }

  /** The screenshots a passing step takes: one per validation, and one
      more when it closes the dialog. */
  function StepShots(step: Step): nat {
    |step.validations| + if ClosesAfter(step) then 1 else 0
  }

  function ExpectedShots(steps: seq<Step>): nat {
    if steps == [] then 0 else ExpectedShots(steps[..|steps| - 1]) + StepShots(steps[|steps| - 1])
  }

  /** Opening a step adds its numbered title first; the dialog is reopened
      exactly when `get_state` answers False, and reopening issues nothing
      through the dialog's page, which stays the one the case started with. */
  lemma ReopenOnlyWhenNotReady(step: Step, i: nat, session: Session, window: Locator)
    ensures var r := Opening(step, i, session, window);
      var state := BasePage.WindowState(window, session.state(i));
      && r.evidence[0] == StepOpened(StepTitle(i, step.methodName))
      && (Reopened in r.evidence <==> state.0 == Ok(false))
      && r.actions == state.1
      && !r.verdict.Failed?
      && Shots(r.evidence) == 0
  {
    var r := Opening(step, i, session, window);
    var state := BasePage.WindowState(window, session.state(i));
    var title := StepOpened(StepTitle(i, step.methodName));
    if state.0 == Ok(false) {
      assert r.evidence == [title, Reopened];
      assert [Reopened][1..] == [];
    } else {
      assert r.evidence == [title];
    }
    assert [title][1..] == [];
  }

  /** A missing `params` behaves as an empty list, a missing `close_after`
      as False. */
  lemma MissingKeysDefault(step: Step, id: Value, i: nat, session: Session, mainWindow: Locator)
    ensures step.params.None? ==> Invocation(step, i, session) == Invocation(step.(params := Some([])), i, session)
    ensures step.closeAfter.None? ==>
      Closing(step, id, i, session, mainWindow)
      == Closing(step.(closeAfter := Some(BoolValue(false))), id, i, session, mainWindow)
  {
  }

  /** Without `close_after` the closing part is empty; a passing close
      issues exactly the close actions and reports the main window's
      screenshot after its heading. */
  lemma ClosingShape(step: Step, id: Value, i: nat, session: Session, mainWindow: Locator)
    ensures var cl := Closing(step, id, i, session, mainWindow);
      && (!ClosesAfter(step) ==> cl == Run(Passed, [], []))
      && (ClosesAfter(step) && cl.verdict.Passed? ==>
            && cl.actions == MethodWindowPage.CloseActions && |cl.evidence| == 2
            && cl.evidence[1] == Captured(mainWindow, Png(Screenshot.AttachmentName(Some(CloseSuffix(id, i))))))
  {
    if ClosesAfter(step) {
      MethodWindowPage.PerformOutcome(session.screens(i).raises, MethodWindowPage.CloseActions);
    }
  }

  /** A run followed by an empty passing part is the run itself. */
  lemma ThenEmpty(x: Run)
    ensures Then(x, Run(Passed, [], [])) == x
  {
    if x.verdict.Passed? {
      assert x.evidence + [] == x.evidence && x.actions + [] == x.actions;
    }
  }

  /** The dialog is closed only after every validation of the step passed,
      and only when `close_after` is set; a passing close ends with the
      close actions and the main window's screenshot. */
  lemma CloseAfterChecks(tc: TestCase, i: nat, session: Session, window: Locator, mainWindow: Locator)
    requires i < |tc.steps|
    ensures var step := tc.steps[i];
      var checks := Checks(tc.id, i, step.validations, session.screens(i), session.cameras(i), window);
      !checks.verdict.Passed? || !ClosesAfter(step) ==>
        StepRun(tc, i, session, window, mainWindow)
        == Then(Then(Opening(step, i, session, window), Invocation(step, i, session)), checks)
    ensures var step := tc.steps[i];
      var r := StepRun(tc, i, session, window, mainWindow);
      r.verdict.Passed? && ClosesAfter(step)
      ==> && |r.actions| >= 2 && r.actions[|r.actions| - 2..] == MethodWindowPage.CloseActions
          && r.evidence[|r.evidence| - 1]
             == Captured(mainWindow, Png(Screenshot.AttachmentName(Some(CloseSuffix(tc.id, i)))))
  {
    var step := tc.steps[i];
    var checks := Checks(tc.id, i, step.validations, session.screens(i), session.cameras(i), window);
    var prior := Then(Then(Opening(step, i, session, window), Invocation(step, i, session)), checks);
    var cl := Closing(step, tc.id, i, session, mainWindow);
    ClosingShape(step, tc.id, i, session, mainWindow);
    ThenEmpty(prior);
    var r := Then(prior, cl);
    if r.verdict.Passed? && ClosesAfter(step) {
      assert (prior.actions + cl.actions)[|prior.actions|..] == cl.actions;
    }
  }

  /** Invoking never fails an assertion and adds no screenshot. */
  lemma InvocationFacts(step: Step, i: nat, session: Session)
    ensures var r := Invocation(step, i, session);
      !r.verdict.Failed? && Shots(r.evidence) == 0
  {
    var r := Invocation(step, i, session);
    if r.evidence != [] {
      assert r.evidence[1..] == [];
    }
  }

  /** Closing never fails an assertion; a passing close adds one screenshot
      when the step closes the dialog and none otherwise. */
  lemma ClosingFacts(step: Step, id: Value, i: nat, session: Session, mainWindow: Locator)
    ensures var r := Closing(step, id, i, session, mainWindow);
      && !r.verdict.Failed?
      && (r.verdict.Passed? ==> Shots(r.evidence) == if ClosesAfter(step) then 1 else 0)
  {
    var r := Closing(step, id, i, session, mainWindow);
    if ClosesAfter(step) && r.verdict.Passed? {
      assert |r.evidence| == 2;
      assert r.evidence[1..][1..] == [];
    }
  }

  /** The four phases of a step, composed: the step passes only when each
      phase does, and an assertion failure can only come from the checks. */
  lemma Phases(o: Run, inv: Run, c: Run, cl: Run, window: Locator)
    requires !o.verdict.Failed? && !inv.verdict.Failed? && !cl.verdict.Failed?
    requires Shots(o.evidence) == 0 && Shots(inv.evidence) == 0
    requires c.verdict.Failed? ==> EndsWithShot(c, window)
    requires |o.evidence| > 0
    ensures var r := Then(Then(Then(o, inv), c), cl);
      && (r.verdict.Passed? ==> c.verdict.Passed? && Shots(r.evidence) == Shots(c.evidence) + Shots(cl.evidence))
      && (r.verdict.Failed? ==> EndsWithShot(r, window))
      && r.evidence[0] == o.evidence[0]
  {
    var oi := Then(o, inv);
    var oic := Then(oi, c);
    if oic.verdict.Passed? {
      ShotsAppend(o.evidence, inv.evidence);
      ShotsAppend(oi.evidence, c.evidence);
      ShotsAppend(oic.evidence, cl.evidence);
    }
  }

  /** What a step's outcome says about its report. */
  predicate StepReported(r: Run, step: Step, screen: MethodWindowPage.Screen, window: Locator) {
    && (r.verdict.Passed? ==> Shots(r.evidence) == StepShots(step) && Matched(step, screen))
    && (r.verdict.Failed? ==> EndsWithShot(r, window))
  }

  /** A passing step takes one screenshot per validation plus one for the
      close, and every validation printed as expected; a step that fails an
      assertion ends its report with the dialog's screenshot. Its report
      begins with the step's numbered title. */
  lemma StepOutcome(tc: TestCase, i: nat, session: Session, window: Locator, mainWindow: Locator)
    requires i < |tc.steps|
    ensures StepReported(StepRun(tc, i, session, window, mainWindow), tc.steps[i], session.screens(i), window)
    ensures StepRun(tc, i, session, window, mainWindow).evidence[0]
         == StepOpened(StepTitle(i, tc.steps[i].methodName))
  {
    var step := tc.steps[i];
    var screen := session.screens(i);
    var o := Opening(step, i, session, window);
    var inv := Invocation(step, i, session);
    var c := Checks(tc.id, i, step.validations, screen, session.cameras(i), window);
    var cl := Closing(step, tc.id, i, session, mainWindow);
    ReopenOnlyWhenNotReady(step, i, session, window);
    InvocationFacts(step, i, session);
    ChecksPass(tc.id, i, step.validations, screen, session.cameras(i), window);
    ClosingFacts(step, tc.id, i, session, mainWindow);
    Phases(o, inv, c, cl, window);
  }

  /** A sequence of steps after a header that passes and takes no
      screenshot: it passes exactly when every step does, and then holds
      the expected screenshots and all validations matched. */
  lemma StepsFold(head: Run, runs: seq<Run>, steps: seq<Step>, screens: nat -> MethodWindowPage.Screen,
                  window: Locator)
    requires |runs| == |steps|
    requires head.verdict.Passed? && Shots(head.evidence) == 0
    requires forall k :: 0 <= k < |runs| ==> StepReported(runs[k], steps[k], screens(k), window)
    ensures var r := Sequence(head, runs);
      && (r.verdict.Passed? <==> forall k :: 0 <= k < |runs| ==> runs[k].verdict.Passed?)
      && (r.verdict.Passed? ==> Shots(r.evidence) == ExpectedShots(steps))
      && (r.verdict.Passed? ==> forall k :: 0 <= k < |steps| ==> Matched(steps[k], screens(k)))
      && (r.verdict.Failed? ==> EndsWithShot(r, window))
  {
    SequencePasses(head, runs);
    SequenceFailed(head, runs, window);
    if Sequence(head, runs).verdict.Passed? {
      PartShotsSteps(steps, runs, |runs|);
      assert steps[..|runs|] == steps && runs[..|runs|] == runs;
    }
  }

  /** A case passes exactly when each of its steps passes. Then it took one
      screenshot per validation plus one per closing step, and every
      validation printed as expected. A case that fails an assertion ends
      its report with the screenshot of the dialog taken just before. */
  lemma CaseOutcome(tc: TestCase, session: Session, window: Locator, mainWindow: Locator)
    ensures var r := CaseRun(tc, session, window, mainWindow);
      && (r.verdict.Passed?
          <==> forall i :: 0 <= i < |tc.steps| ==> StepRun(tc, i, session, window, mainWindow).verdict.Passed?)
      && (r.verdict.Passed? ==> Shots(r.evidence) == ExpectedShots(tc.steps))
      && (r.verdict.Passed? ==> forall i :: 0 <= i < |tc.steps| ==> Matched(tc.steps[i], session.screens(i)))
      && (r.verdict.Failed? ==> EndsWithShot(r, window))
  {
    var runs := StepRuns(tc, session, window, mainWindow);
    forall i | 0 <= i < |tc.steps|
      ensures StepReported(runs[i], tc.steps[i], session.screens(i), window)
    {
      StepOutcome(tc, i, session, window, mainWindow);
    }
    HeaderShots(tc);
    StepsFold(Header(tc), runs, tc.steps, session.screens, window);
  }

  /** The report header holds no screenshot. */
  lemma HeaderShots(tc: TestCase)
    ensures Shots(Header(tc).evidence) == 0
  {
    var e := Header(tc).evidence;
    var t := [Tagged(CaseTag(tc))];
    assert t[1..] == [];
    assert Shots(t) == 0;
    assert e[1..] == t;
  }

  lemma {:induction false} PartShotsSteps(steps: seq<Step>, runs: seq<Run>, n: nat)
    requires n <= |runs| == |steps|
    requires forall k :: 0 <= k < n ==> Shots(runs[k].evidence) == StepShots(steps[k])
    ensures PartShots(runs[..n]) == ExpectedShots(steps[..n])
    decreases n
  {
    if n > 0 {
      PartShotsSteps(steps, runs, n - 1);
      assert runs[..n][..n - 1] == runs[..n - 1];
      assert steps[..n][..n - 1] == steps[..n - 1];
    }
  }

  /** When step `i` is the first that does not pass, the case ends with it:
      its verdict is the case's, and no later step runs. */
  lemma LaterStepsSkipped(tc: TestCase, session: Session, window: Locator, mainWindow: Locator, i: nat)
    requires i < |tc.steps|
    requires forall k :: 0 <= k < i ==> StepRun(tc, k, session, window, mainWindow).verdict.Passed?
    requires !StepRun(tc, i, session, window, mainWindow).verdict.Passed?
    ensures CaseRun(tc, session, window, mainWindow).verdict == StepRun(tc, i, session, window, mainWindow).verdict
    ensures CaseRun(tc, session, window, mainWindow)
         == Sequence(Header(tc), StepRuns(tc, session, window, mainWindow)[..i + 1])
  {
    var runs := StepRuns(tc, session, window, mainWindow);
    SequencePasses(Header(tc), runs[..i]);
    SequenceStep(Header(tc), runs, i);
    SequenceStops(Header(tc), runs, i + 1);
  }

  /** The module's `CASES` list, which the test is parametrised over. */
  class Suite {
    var cases: seq<TestCase>

    constructor ()
      ensures cases == []
    {
      cases := [];
    }

    /** `setup_module`: load the cases only if none were put in the list
        before the module's tests start. */
    method SetupModule(loaded: seq<TestCase>)
      modifies this
      ensures cases == if old(cases) == [] then loaded else old(cases)
    {
      if cases == [] {
        cases := cases + loaded;
      }
    }
  }
}
