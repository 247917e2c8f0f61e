/** Values and string helpers shared by the three batch handlers. */
module Common {

  datatype Option<+T> = None | Some(value: T)

  // Status strings and the stable error codes of the gateway's envelopes.
  const SUCCESS: string := "SUCCESS"
  const ERROR: string := "ERROR"
  const MO8000: string := "MO8000"  // generic or unexpected failure
  const MO8001: string := "MO8001"  // empty or invalid client_ids
  const MO8002: string := "MO8002"  // missing order fields
  const MO8003: string := "MO8003"  // client IDs without stored credentials
  const MO8004: string := "MO8004"  // no result returned for a dispatched item

  /** `!list || !Array.isArray(list) || list.length === 0` fails exactly when this holds;
      None stands for an absent or non-array field. */
  predicate NonEmptyList<T>(list: Option<seq<T>>) {
    list.Some? && |list.value| > 0
  }

  /** An exception caught from an upstream call: `error.response?.data?.message`,
      `error.message` and `error.response?.data?.errorcode` ("" when absent). */
  datatype Thrown = Thrown(responseMessage: string, message: string, responseErrorcode: string)

  /** A string field is truthy in JavaScript iff it is present and not empty;
      absent, null and "" are all written "" in this model. */
  predicate Truthy(s: string) {
    s != ""
  }

  /** JavaScript's `a || b` on two string fields. */
  function Or(a: string, b: string): string {
    if Truthy(a) then a else b
  }

  /** `String.prototype.toUpperCase` on one character (ASCII letters only). */
  function UpperChar(c: char): char {
    if 'a' <= c <= 'z' then (c as int - 'a' as int + 'A' as int) as char else c
  }

  function ToUpper(s: string): (u: string)
    ensures |u| == |s|
    ensures forall i :: 0 <= i < |s| ==> u[i] == UpperChar(s[i])
  {
    if s == [] then [] else [UpperChar(s[0])] + ToUpper(s[1..])
  }

  /** `String.prototype.endsWith`. */
  predicate EndsWith(s: string, suffix: string) {
    |suffix| <= |s| && s[|s| - |suffix|..] == suffix
  }

  /** `Array.prototype.join`. */
  function Join(items: seq<string>, sep: string): string {
    if |items| == 0 then ""
    else if |items| == 1 then items[0]
    else items[0] + sep + Join(items[1..], sep)
  }

  function DigitChar(d: nat): char
    requires d < 10
  {
    "0123456789"[d]
  }

  /** Decimal rendering of a count inside a template literal. */
  function NatToString(n: nat): (s: string)
    decreases n
  {
    if n < 10 then [DigitChar(n)] else NatToString(n / 10) + [DigitChar(n % 10)]
  }
}
