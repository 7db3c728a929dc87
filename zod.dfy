/** The part of Zod's string-schema behaviour the validators use.

    A Zod object parses its fields in declaration order and a string field runs its checks
    in declaration order, collecting every failure as an issue; the actions report the
    message of the first issue. `.trim()` is itself one of those checks: it replaces the
    value with its trimmed form at its place in the chain, so the length checks written
    before it see the raw string. */
module Zod {
  import opened Wrappers
  import opened Text

  /** JavaScript's `length`: the number of UTF-16 code units. */
  function JsLength(s: string): (n: nat)
    ensures |s| <= n <= 2 * |s|
    ensures n == 0 <==> s == []
  {
    if s == [] then 0 else (if s[0] as int > 0xFFFF then 2 else 1) + JsLength(s[1..])
  }

  datatype Parsed<T> = Valid(data: T) | Invalid(issues: seq<string>)

  /** A field declared `.optional().nullable()`: left out, `null`, or a value. */
  datatype Field<T> = Absent | Null | Present(value: T) {
    function OrNull(): Option<T> {
      if Present? then Some(value) else None
    }
  }

  /** One check: no issue, or one issue carrying `message`. */
  function Check(failed: bool, message: string): (issues: seq<string>)
    ensures issues == [] <==> !failed
    ensures |issues| <= 1 && (issues != [] ==> issues[0] == message)
  {
    if failed then [message] else []
  }

  function Min(s: string, n: nat, message: string): seq<string> {
    Check(JsLength(s) < n, message)
  }

  function Max(s: string, n: nat, message: string): seq<string> {
    Check(JsLength(s) > n, message)
  }

  /** The issues of an optional field: an absent or null value is not checked. */
  function FieldIssues<T>(f: Field<T>, issues: T -> seq<string>): seq<string> {
    if f.Present? then issues(f.value) else []
  }

  /** `parsed.error.issues[0]?.message ?? 'Invalid input'`. */
  function FirstMessage(issues: seq<string>): string {
    if issues == [] then "Invalid input" else issues[0]
  }

  /** `.trim()` on an optional field: a present value is trimmed. */
  function TrimField(f: Field<string>): (r: Field<string>)
    ensures r.Absent? <==> f.Absent?
    ensures r.Null? <==> f.Null?
    ensures f.Present? ==> r.value == Trim(f.value)
  {
    if f.Present? then Present(Trim(f.value)) else f
  }

  /** The first issue of two checks in a row is the first check's, if it has one. */
  lemma HeadOfConcat(a: seq<string>, b: seq<string>)
    ensures a + b == [] <==> a == [] && b == []
    ensures a + b != [] ==> (a + b)[0] == if a != [] then a[0] else b[0]
  {
    if a == [] {
      assert a + b == b;
    }
  }

  /** Zod's own message for a failed `.min(1)` with no message given. */
  const DEFAULT_MIN_ONE_MESSAGE := "String must contain at least 1 character(s)"
}
