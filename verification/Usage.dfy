// Usage events, and the numbers in them: src/llm_harness/metrics.py:31-56 and 401-459.

module Rounding {
  /** `round(x)`: to the nearest integer, and to the even one of two. */
  function RoundHalfEven(x: real): (r: int)
    ensures -0.5 <= r as real - x <= 0.5
    ensures (r as real - x == 0.5 || r as real - x == -0.5) ==> r % 2 == 0
  {
    var low := x.Floor;
    var rest := x - low as real;
    if rest < 0.5 || (rest == 0.5 && low % 2 == 0) then low else low + 1
  }

  /** `round(x, 8)` without the error of binary fractions. */
  function Round8(x: real): (r: real)
    ensures -0.000000005 <= r - x <= 0.000000005
  {
    RoundHalfEven(x * 100000000.0) as real / 100000000.0
  }

  /** `round(x, 4)` likewise. */
  function Round4(x: real): (r: real)
    ensures -0.00005 <= r - x <= 0.00005
  {
    RoundHalfEven(x * 10000.0) as real / 10000.0
  }
}

module UsageEvents {
  import opened Prelude
  import opened Json

  datatype UsageEvent = UsageEvent(
    kind: string, role: string, agent: string, provider: string, model: string, driver: string,
    task: Option<string>, run: Option<string>, invocation: Option<string>,
    durationMs: Option<nat>, inputTokens: Option<nat>, outputTokens: Option<nat>, totalTokens: Option<nat>,
    contextUsed: Option<nat>, contextSize: Option<nat>,
    costAmount: Option<real>, costCurrency: Option<string>, costSource: Option<string>,
    qualityScore: Option<real>, outcome: string)

  /** `float(text)`, `int(text)`, `str(value)`, `upper`, `casefold` and `isdigit`. Numbers are exact, so
      `inf` and `nan` are no numbers here. */
  datatype Library = Library(
    parseFloat: string -> Option<real>, parseInt: string -> Option<int>, show: Json -> string,
    upper: string -> string, fold: string -> string, isDigit: string -> bool)

  function OrZero(n: Option<nat>): nat {
    if n.Some? then n.value else 0
  }

  function NotNegative(x: real): Option<real> {
    if x >= 0.0 then Some(x) else None
  }

  /** `_number` */
  function Number(lib: Library, value: Json): Option<real> {
    match value
    case JInt(n) => NotNegative(n as real)
    case JReal(x) => NotNegative(x)
    case JStr(text) => if lib.parseFloat(text).Some? then NotNegative(lib.parseFloat(text).value) else None
    case _ => None
  }

  /** `int(x)`, toward zero. */
  function Truncate(x: real): int {
    if x >= 0.0 then x.Floor else -((-x).Floor)
  }

  /** `_integer` */
  function Integer(lib: Library, value: Json): Option<nat> {
    var result: Option<int> :=
      match value
      case JInt(n) => Some(n)
      case JReal(x) => Some(Truncate(x))
      case JStr(text) => lib.parseInt(text)
      case _ => None;
    if result.Some? && result.value >= 0 then Some(result.value) else None
  }

  /** `_text` */
  function Text(lib: Library, value: Json): Option<string> {
    match value
    case JStr(text) => if text != "" then Some(text) else None
    case JInt(_) => if lib.show(value) != "" then Some(lib.show(value)) else None
    case JBool(_) => if lib.show(value) != "" then Some(lib.show(value)) else None
    case _ => None
  }
}
