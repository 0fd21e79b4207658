/** Values shared by every part of the model: optional and fallible results,
    the Python exception classes the harness raises or catches, and the
    loosely typed values that test cases carry. */
module Common {
  import opened Strings

  datatype Option<T> = None | Some(value: T)

  datatype Result<T> = Ok(value: T) | Err(error: Error)

  /** The exception classes that matter to the harness. */
  datatype ExcKind =
    | TimeoutError          // pywinauto.timings.TimeoutError
    | ElementNotFoundError  // pywinauto.findwindows.ElementNotFoundError
    | AttributeError        // e.g. calling a method on None
    | NotImplementedError
    | AssertionError
    | UnboundLocalError     // a local read before it was assigned
    | ValueError
    | OtherError(name: string)

  /** A raised exception: its class and what `str(e)` gives. */
  datatype Error = Error(kind: ExcKind, message: string)

  /** What `time.sleep` raises for a negative duration. */
  const NegativeSleep: Error := Error(ValueError, "sleep length must be non-negative")

  /** The `exceptions` argument of an `except` clause: every `Exception`,
      or only the listed classes. */
  datatype CatchSpec = AnyException | OnlyKinds(kinds: set<ExcKind>)

  predicate Catches(spec: CatchSpec, e: Error) {
    match spec
    case AnyException => true
    case OnlyKinds(kinds) => e.kind in kinds
  }

  /** A scalar read from a YAML case file or from a control. */
  datatype Value =
    | NoneValue
    | BoolValue(b: bool)
    | IntValue(i: int)
    | StrValue(s: string)
      /** Any other YAML value (a float, a list, a mapping), known by what
          `str()` prints for it and by its truthiness. */
    | OtherValue(text: string, truthy: bool)

  /** Python truthiness: False, 0, the empty string and None are false;
      any other value carries its own. */
  predicate Truthy(v: Value) {
    match v
    case NoneValue => false
    case BoolValue(b) => b
    case IntValue(i) => i != 0
    case StrValue(s) => s != ""
    case OtherValue(_, truthy) => truthy
  }

  /** What the harness adds to the Allure report with `allure.attach`. */
  datatype Attachment = Text(name: string, body: string) | Png(name: string)

  /** The harness drives Windows applications, so `str()` of a path joins
      its parts with a backslash. */
  const OsSep: char := '\\'

  /** Python's `str()` on such a value. */
  function Str(v: Value): (r: string)
    ensures v.StrValue? ==> r == v.s
    ensures v.BoolValue? ==> r == (if v.b then "True" else "False")
    ensures v.NoneValue? ==> r == "None"
    ensures v.OtherValue? ==> r == v.text
    ensures v.IntValue? ==> |r| >= 1 && (v.i < 0 <==> r[0] == '-')
    ensures v.IntValue? && v.i >= 0 ==> (forall k :: 0 <= k < |r| ==> IsDigit(r[k])) && DigitsValue(r) == v.i
    ensures v.IntValue? && v.i < 0 ==> (forall k :: 1 <= k < |r| ==> IsDigit(r[k])) && DigitsValue(r[1..]) == -v.i
  {
    match v
    case NoneValue => "None"
    case BoolValue(b) => if b then "True" else "False"
    case IntValue(i) => IntToString(i)
    case StrValue(s) => s
    case OtherValue(text, _) => text
  }
}
