/** `SmartWait.until_element_ready`: poll a control until it exists, is
    visible and is enabled, sleeping a fixed interval after each poll that
    is not ready, and raise TimeoutError once the deadline has passed.

    Time is an abstract clock in milliseconds. The clock reads `start` when
    the deadline is computed; poll `i` itself takes `pollTime(i)` ms and is
    followed by the sleep, so the clock moves only forwards. `probe(i)`
    answers the three queries of poll `i`. */
module WaitStrategy {
  import opened Common
  import opened Ui

  const DefaultTimeoutMs: int := 10000
  const DefaultIntervalMs: int := 500

  /** The TimeoutError the gate raises. It names the control by `shown`,
      what `str()` prints for the control object the caller passed. */
  function TimeoutFor(shown: string): Error {
    Error(TimeoutError, "控件 " + shown + " 超时未就绪")
  }

  /** The clock reading before poll `i`. */
  function ClockAt(start: int, interval: int, pollTime: nat -> nat, i: nat): int {
    if i == 0 then start else ClockAt(start, interval, pollTime, i - 1) + pollTime(i - 1) + interval
  }

  /** The clock makes progress: a positive interval, or polls that take time. */
  ghost predicate Advances(interval: int, pollTime: nat -> nat) {
    interval != 0 || forall i :: pollTime(i) > 0
  }

  datatype GateOutcome = ElementReady | TimedOut | Aborted(error: Error)

  /** How the gate ends, what it issued, and how many polls it made. */
  datatype Gate = Gate(outcome: GateOutcome, trace: seq<Action>, polls: nat)

  /** The gate from the point where `i` polls have been made. */
  function WaitFrom(control: Locator, probe: nat -> Query -> Answer, start: int, deadline: int,
                    interval: int, pollTime: nat -> nat, i: nat): (g: Gate)
    requires Advances(interval, pollTime)
    decreases deadline - ClockAt(start, interval, pollTime, i)
  {
    var now := ClockAt(start, interval, pollTime, i);
    if now >= deadline then Gate(TimedOut, [], i)
    else
      var (result, probes) := Poll(control, probe(i));
      match result
      case Ready => Gate(ElementReady, probes, i + 1)
      case PollFailed(e) => Gate(Aborted(e), probes, i + 1)
      case NotReady =>
        if interval < 0 then Gate(Aborted(NegativeSleep), probes, i + 1)
        else
          assert ClockAt(start, interval, pollTime, i + 1) > now;
          var rest := WaitFrom(control, probe, start, deadline, interval, pollTime, i + 1);
          Gate(rest.outcome, probes + [Sleep(interval)] + rest.trace, rest.polls)
  }

  /** One turn of the loop, as the specification takes it. */
  lemma WaitStep(control: Locator, probe: nat -> Query -> Answer, start: int, deadline: int,
                 interval: int, pollTime: nat -> nat, i: nat)
    requires Advances(interval, pollTime)
    requires ClockAt(start, interval, pollTime, i) < deadline
    ensures var g := WaitFrom(control, probe, start, deadline, interval, pollTime, i);
      var (result, probes) := Poll(control, probe(i));
      match result
      case Ready => g == Gate(ElementReady, probes, i + 1)
      case PollFailed(e) => g == Gate(Aborted(e), probes, i + 1)
      case NotReady =>
        if interval < 0 then g == Gate(Aborted(NegativeSleep), probes, i + 1)
        else
          var rest := WaitFrom(control, probe, start, deadline, interval, pollTime, i + 1);
          && ClockAt(start, interval, pollTime, i + 1) == ClockAt(start, interval, pollTime, i) + pollTime(i) + interval
          && g.outcome == rest.outcome && g.polls == rest.polls
          && g.trace == probes + [Sleep(interval)] + rest.trace
  {
  }

  /** The gate seen part-way: what has been issued so far, then the rest. */
  ghost predicate SoFar(spec: Gate, trace: seq<Action>, control: Locator, probe: nat -> Query -> Answer,
                        start: int, deadline: int, interval: int, pollTime: nat -> nat, i: nat)
    requires Advances(interval, pollTime)
  {
    var rest := WaitFrom(control, probe, start, deadline, interval, pollTime, i);
    spec == Gate(rest.outcome, trace + rest.trace, rest.polls)
  }

  /** A poll that is not ready, followed by its sleep, moves the loop on by one. */
  lemma WaitContinues(spec: Gate, trace: seq<Action>, control: Locator, probe: nat -> Query -> Answer,
                      start: int, deadline: int, interval: int, pollTime: nat -> nat, i: nat)
    requires Advances(interval, pollTime)
    requires ClockAt(start, interval, pollTime, i) < deadline
    requires Poll(control, probe(i)).0 == NotReady && interval >= 0
    requires SoFar(spec, trace, control, probe, start, deadline, interval, pollTime, i)
    ensures SoFar(spec, trace + Poll(control, probe(i)).1 + [Sleep(interval)],
                  control, probe, start, deadline, interval, pollTime, i + 1)
    ensures ClockAt(start, interval, pollTime, i + 1) == ClockAt(start, interval, pollTime, i) + pollTime(i) + interval
  {
    WaitStep(control, probe, start, deadline, interval, pollTime, i);
  }

  /** A poll that is ready or fails, or a negative interval, ends the loop
      with what the caller sees. */
  lemma WaitEnds(spec: Gate, trace: seq<Action>, control: Locator, shown: string, probe: nat -> Query -> Answer,
                 start: int, deadline: int, interval: int, pollTime: nat -> nat, i: nat)
    requires Advances(interval, pollTime)
    requires ClockAt(start, interval, pollTime, i) < deadline
    requires SoFar(spec, trace, control, probe, start, deadline, interval, pollTime, i)
    ensures var (result, probes) := Poll(control, probe(i));
      !(result == NotReady && interval >= 0) ==>
        && spec.trace == trace + probes && spec.polls == i + 1
        && AsResult(spec.outcome, shown)
           == (if result == Ready then Ok(true)
               else if result.PollFailed? then Err(result.error)
               else Err(NegativeSleep))
  {
    WaitStep(control, probe, start, deadline, interval, pollTime, i);
  }

  /** Once the clock has reached the deadline the loop stops with a timeout. */
  lemma WaitExpires(spec: Gate, trace: seq<Action>, control: Locator, probe: nat -> Query -> Answer,
                    start: int, deadline: int, interval: int, pollTime: nat -> nat, i: nat)
    requires Advances(interval, pollTime)
    requires ClockAt(start, interval, pollTime, i) >= deadline
    requires SoFar(spec, trace, control, probe, start, deadline, interval, pollTime, i)
    ensures spec == Gate(TimedOut, trace, i)
  {
  }

  /** Outcome and poll count of one turn: a poll that is not ready hands
      both on to the rest of the gate, any other poll ends it there. */
  lemma WaitCount(control: Locator, probe: nat -> Query -> Answer, start: int, deadline: int,
                  interval: int, pollTime: nat -> nat, i: nat)
    requires Advances(interval, pollTime)
    ensures var g := WaitFrom(control, probe, start, deadline, interval, pollTime, i);
      var result := Poll(control, probe(i)).0;
      && (ClockAt(start, interval, pollTime, i) >= deadline ==> g.outcome.TimedOut? && g.polls == i)
      && (ClockAt(start, interval, pollTime, i) < deadline && result == NotReady && interval >= 0 ==>
            var rest := WaitFrom(control, probe, start, deadline, interval, pollTime, i + 1);
            g.outcome == rest.outcome && g.polls == rest.polls)
      && (ClockAt(start, interval, pollTime, i) < deadline && !(result == NotReady && interval >= 0) ==>
            && g.polls == i + 1 && !g.outcome.TimedOut?
            && (g.outcome.ElementReady? <==> result == Ready))
  {
    if ClockAt(start, interval, pollTime, i) < deadline {
      WaitStep(control, probe, start, deadline, interval, pollTime, i);
    }
  }

  /** The timing facts of a gate `g` that starts at poll `i`. */
  ghost predicate Timed(g: Gate, i: nat, control: Locator, probe: nat -> Query -> Answer, start: int,
                        deadline: int, interval: int, pollTime: nat -> nat)
  {
    && g.polls >= i
    && (g.outcome.TimedOut? ==> ClockAt(start, interval, pollTime, g.polls) >= deadline)
    && (g.outcome.TimedOut? && g.polls > i ==> ClockAt(start, interval, pollTime, g.polls - 1) < deadline)
    && (!g.outcome.TimedOut? ==> g.polls > i && ClockAt(start, interval, pollTime, g.polls - 1) < deadline)
    && (g.outcome.ElementReady? ==> Poll(control, probe(g.polls - 1)).0 == Ready)
  }

  /** A turn that hands on to the rest keeps the rest's timing facts. */
  lemma TimedHandsOn(g: Gate, rest: Gate, i: nat, control: Locator, probe: nat -> Query -> Answer, start: int,
                     deadline: int, interval: int, pollTime: nat -> nat)
    requires ClockAt(start, interval, pollTime, i) < deadline
    requires g.outcome == rest.outcome && g.polls == rest.polls
    requires Timed(rest, i + 1, control, probe, start, deadline, interval, pollTime)
    ensures Timed(g, i, control, probe, start, deadline, interval, pollTime)
  {
  }

  /** A turn that ends the gate at its own poll has the timing facts. */
  lemma TimedEnds(g: Gate, i: nat, control: Locator, probe: nat -> Query -> Answer, start: int,
                  deadline: int, interval: int, pollTime: nat -> nat)
    requires ClockAt(start, interval, pollTime, i) < deadline
    requires g.polls == i + 1 && !g.outcome.TimedOut?
    requires g.outcome.ElementReady? ==> Poll(control, probe(i)).0 == Ready
    ensures Timed(g, i, control, probe, start, deadline, interval, pollTime)
  {
  }

  /** The gate times out only once the clock has reached the deadline, and
      every other ending comes from a poll that started before it; a ready
      ending comes from a poll where all three queries held. */
  lemma {:induction false} GateTiming(control: Locator, probe: nat -> Query -> Answer, start: int,
                                      deadline: int, interval: int, pollTime: nat -> nat, i: nat)
    requires Advances(interval, pollTime)
    ensures Timed(WaitFrom(control, probe, start, deadline, interval, pollTime, i), i,
                  control, probe, start, deadline, interval, pollTime)
    decreases deadline - ClockAt(start, interval, pollTime, i)
  {
    var g := WaitFrom(control, probe, start, deadline, interval, pollTime, i);
    WaitCount(control, probe, start, deadline, interval, pollTime, i);
    if ClockAt(start, interval, pollTime, i) >= deadline {
      assert g.outcome.TimedOut? && g.polls == i;
    } else if Poll(control, probe(i)).0 == NotReady && interval >= 0 {
      assert ClockAt(start, interval, pollTime, i + 1) > ClockAt(start, interval, pollTime, i);
      GateTiming(control, probe, start, deadline, interval, pollTime, i + 1);
      var rest := WaitFrom(control, probe, start, deadline, interval, pollTime, i + 1);
      TimedHandsOn(g, rest, i, control, probe, start, deadline, interval, pollTime);
    } else {
      TimedEnds(g, i, control, probe, start, deadline, interval, pollTime);
    }
  }

  /** After every poll that is not ready the gate sleeps exactly the
      interval, and does nothing but poll and sleep. */
  lemma {:induction false} SleepsAreInterval(control: Locator, probe: nat -> Query -> Answer, start: int,
                                             deadline: int, interval: int, pollTime: nat -> nat, i: nat)
    requires Advances(interval, pollTime)
    ensures var t := WaitFrom(control, probe, start, deadline, interval, pollTime, i).trace;
      forall k :: 0 <= k < |t| ==> t[k].Probe? || t[k] == Sleep(interval)
    decreases deadline - ClockAt(start, interval, pollTime, i)
  {
    if ClockAt(start, interval, pollTime, i) < deadline {
      WaitStep(control, probe, start, deadline, interval, pollTime, i);
      if Poll(control, probe(i)).0 == NotReady && interval >= 0 {
        SleepsAreInterval(control, probe, start, deadline, interval, pollTime, i + 1);
      }
    }
  }

  /** Without a negative interval the clock never runs backwards. */
  lemma {:induction false} ClockGrows(start: int, interval: int, pollTime: nat -> nat, k: nat, j: nat)
    requires interval >= 0 && k <= j
    ensures ClockAt(start, interval, pollTime, k) <= ClockAt(start, interval, pollTime, j)
    decreases j - k
  {
    if k < j {
      ClockGrows(start, interval, pollTime, k, j - 1);
    }
  }

  /** Every poll the gate makes before its last was not ready, and so was
      the last one when the gate timed out: a ready ending is the first
      ready poll, and a timeout follows only polls that were not ready. */
  lemma {:induction false} NotReadyBefore(control: Locator, probe: nat -> Query -> Answer, start: int,
                                          deadline: int, interval: int, pollTime: nat -> nat, i: nat)
    requires Advances(interval, pollTime)
    ensures var g := WaitFrom(control, probe, start, deadline, interval, pollTime, i);
      forall k :: i <= k < g.polls - 1 ==> Poll(control, probe(k)).0 == NotReady
    ensures var g := WaitFrom(control, probe, start, deadline, interval, pollTime, i);
      g.outcome.TimedOut? ==> forall k :: i <= k < g.polls ==> Poll(control, probe(k)).0 == NotReady
    decreases deadline - ClockAt(start, interval, pollTime, i)
  {
    var g := WaitFrom(control, probe, start, deadline, interval, pollTime, i);
    WaitCount(control, probe, start, deadline, interval, pollTime, i);
    if ClockAt(start, interval, pollTime, i) < deadline && Poll(control, probe(i)).0 == NotReady && interval >= 0 {
      assert ClockAt(start, interval, pollTime, i + 1) > ClockAt(start, interval, pollTime, i);
      NotReadyBefore(control, probe, start, deadline, interval, pollTime, i + 1);
      var rest := WaitFrom(control, probe, start, deadline, interval, pollTime, i + 1);
      assert g.polls == rest.polls && g.outcome == rest.outcome;
      var last := if g.outcome.TimedOut? then g.polls else g.polls - 1;
      forall k | i <= k < last
        ensures Poll(control, probe(k)).0 == NotReady
      {
        if k > i {
          assert i + 1 <= k;
        }
      }
    }
  }

  /** A control that becomes ready at poll `j`, before the deadline, after
      polls that were not ready, is reported ready at that poll. */
  lemma {:induction false} ReadyInTime(control: Locator, probe: nat -> Query -> Answer, start: int,
                                       deadline: int, interval: int, pollTime: nat -> nat, i: nat, j: nat)
    requires Advances(interval, pollTime) && interval >= 0
    requires i <= j && ClockAt(start, interval, pollTime, j) < deadline
    requires Poll(control, probe(j)).0 == Ready
    requires forall k :: i <= k < j ==> Poll(control, probe(k)).0 == NotReady
    ensures var g := WaitFrom(control, probe, start, deadline, interval, pollTime, i);
      g.outcome == ElementReady && g.polls == j + 1
    decreases j - i
  {
    ClockGrows(start, interval, pollTime, i, j);
    WaitCount(control, probe, start, deadline, interval, pollTime, i);
    if i < j {
      ReadyInTime(control, probe, start, deadline, interval, pollTime, i + 1, j);
    }
  }

  /** A timeout that is not positive raises at once, before any poll. */
  lemma NoTimeNoPoll(control: Locator, probe: nat -> Query -> Answer, start: int, timeout: int,
                     interval: int, pollTime: nat -> nat)
    requires Advances(interval, pollTime)
    requires timeout <= 0
    ensures WaitFrom(control, probe, start, start + timeout, interval, pollTime, 0) == Gate(TimedOut, [], 0)
  {
  }

  /** What the caller sees: True, or the exception. */
  function AsResult(outcome: GateOutcome, shown: string): (r: Result<bool>)
    ensures r.Ok? <==> outcome.ElementReady?
    ensures r.Ok? ==> r.value
    ensures outcome.TimedOut? ==> r.error.kind == TimeoutError && r.error.message == "控件 " + shown + " 超时未就绪"
    ensures outcome.Aborted? ==> r.error == outcome.error
  {
    match outcome
    case ElementReady => Ok(true)
    case TimedOut => Err(TimeoutFor(shown))
    case Aborted(e) => Err(e)
  }

  class SmartWait {
    var baseTimeout: int
    var baseInterval: int

    constructor (baseTimeout: int := DefaultTimeoutMs, baseInterval: int := DefaultIntervalMs)
      ensures this.baseTimeout == baseTimeout && this.baseInterval == baseInterval
    {
      this.baseTimeout := baseTimeout;
      this.baseInterval := baseInterval;
    }

    /** `shown` is what `str()` prints for the control object. */
    method UntilElementReady(control: Locator, shown: string, probe: nat -> Query -> Answer, start: int,
                             pollTime: nat -> nat)
      returns (r: Result<bool>, trace: seq<Action>, polls: nat)
      requires Advances(baseInterval, pollTime)
      ensures var g := WaitFrom(control, probe, start, start + baseTimeout, baseInterval, pollTime, 0);
        r == AsResult(g.outcome, shown) && trace == g.trace && polls == g.polls
    {
      var interval := baseInterval;
      var endTime := start + baseTimeout;
      var now := start;
      var i: nat := 0;
      trace := [];
      ghost var spec := WaitFrom(control, probe, start, endTime, interval, pollTime, 0);
      assert SoFar(spec, trace, control, probe, start, endTime, interval, pollTime, 0);
      while now < endTime
        invariant now == ClockAt(start, interval, pollTime, i)
        invariant SoFar(spec, trace, control, probe, start, endTime, interval, pollTime, i)
        decreases endTime - now
      {
        var poll := Poll(control, probe(i));
        WaitEnds(spec, trace, control, shown, probe, start, endTime, interval, pollTime, i);
        if poll.0 == Ready {
          return Ok(true), trace + poll.1, i + 1;
        }
        if poll.0.PollFailed? {
          return Err(poll.0.error), trace + poll.1, i + 1;
        }
        if interval < 0 {
          return Err(NegativeSleep), trace + poll.1, i + 1;
        }
        WaitContinues(spec, trace, control, probe, start, endTime, interval, pollTime, i);
        trace := trace + poll.1 + [Sleep(interval)];
        now := now + pollTime(i) + interval;
        i := i + 1;
      }
      WaitExpires(spec, trace, control, probe, start, endTime, interval, pollTime, i);
      return Err(TimeoutFor(shown)), trace, i;
    }
  }
}
