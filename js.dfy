/** JavaScript value semantics that the TypeScript sources rely on: optional
    values, truthiness of strings, `a || b` fallbacks, template rendering of
    missing values, ASCII lower-casing and substring search. */
module Js {

  /** `undefined`/`null` (None) or a present value. */
  datatype Option<T> = None | Some(value: T) {
    function GetOr(default: T): T {
      if Some? then value else default
    }
  }

  /** Truthiness of an optional string: a missing value and "" are falsy. */
  predicate Truthy(o: Option<string>) {
    o.Some? && o.value != ""
  }

  /** `a || b` where both operands are optional strings. */
  function Or(a: Option<string>, b: Option<string>): Option<string> {
    if Truthy(a) then a else b
  }

  /** `a || "default"`: always a string. */
  function OrElse(a: Option<string>, default: string): string {
    if Truthy(a) then a.value else default
  }

  /** A template literal `${x}` of an optional-chained value: `undefined` renders as "undefined". */
  function Template(o: Option<string>): string {
    if o.Some? then o.value else "undefined"
  }

  /** A template literal of a database column: SQL NULL arrives as `null` and renders as "null". */
  function TemplateNullable(o: Option<string>): string {
    if o.Some? then o.value else "null"
  }

  predicate IsUpper(c: char) {
    'A' <= c <= 'Z'
  }

  function LowerChar(c: char): char {
    if IsUpper(c) then (c as int + 32) as char else c
  }

  /** `String.prototype.toLowerCase`, restricted to the ASCII letters. */
  function Lower(s: string): (r: string)
    ensures |r| == |s|
    ensures forall i :: 0 <= i < |s| ==> r[i] == LowerChar(s[i])
  {
    seq(|s|, i requires 0 <= i < |s| => LowerChar(s[i]))
  }

  predicate HasNoUpper(s: string) {
    forall i :: 0 <= i < |s| ==> !IsUpper(s[i])
  }

  lemma LowerHasNoUpper(s: string)
    ensures HasNoUpper(Lower(s))
  {
  }

  lemma LowerIdempotent(s: string)
    ensures Lower(Lower(s)) == s <==> HasNoUpper(s)
    ensures Lower(Lower(s)) == Lower(s)
  {
    if HasNoUpper(s) {
      assert Lower(s) == s;
    }
    if Lower(s) == s {
      LowerHasNoUpper(s);
    }
    assert Lower(Lower(s)) == Lower(s);
  }

  lemma LowerOfNoUpper(s: string)
    requires HasNoUpper(s)
    ensures Lower(s) == s
  {
  }

  lemma LowerConcat(a: string, b: string)
    ensures Lower(a + b) == Lower(a) + Lower(b)
  {
  }

  /** `sub` occurs in `s` at position `i`. */
  predicate OccursAt(s: string, sub: string, i: nat) {
    i + |sub| <= |s| && s[i..i + |sub|] == sub
  }

  /** `s.includes(sub)`. */
  predicate Contains(s: string, sub: string) {
    exists i: nat | i <= |s| :: OccursAt(s, sub, i)
  }

  /** `s.endsWith(suffix)`. */
  predicate EndsWith(s: string, suffix: string) {
    |suffix| <= |s| && s[|s| - |suffix|..] == suffix
  }

  /** `s.startsWith(prefix)`. */
  predicate StartsWith(s: string, prefix: string) {
    |prefix| <= |s| && s[..|prefix|] == prefix
  }

  lemma EndsWithContains(s: string, suffix: string)
    requires EndsWith(s, suffix)
    ensures Contains(s, suffix)
  {
    assert OccursAt(s, suffix, |s| - |suffix|);
  }

  lemma StartsWithContains(s: string, prefix: string)
    requires StartsWith(s, prefix)
    ensures Contains(s, prefix)
  {
    assert OccursAt(s, prefix, 0);
  }

  lemma EndsWithConcat(a: string, b: string)
    ensures EndsWith(a + b, b)
  {
    assert (a + b)[|a + b| - |b|..] == b;
  }

  lemma StartsWithConcat(a: string, b: string)
    ensures StartsWith(a + b, a)
  {
    assert (a + b)[..|a|] == a;
  }

  /** An occurrence inside a string is an occurrence inside any extension of it. */
  lemma ContainsExtend(pre: string, s: string, post: string, sub: string)
    requires Contains(s, sub)
    ensures Contains(pre + s + post, sub)
  {
    var i: nat :| i <= |s| && OccursAt(s, sub, i);
    var t := pre + s + post;
    assert t[|pre| + i..|pre| + i + |sub|] == s[i..i + |sub|];
    assert OccursAt(t, sub, |pre| + i);
  }

  /** `str.replace(pattern, replacement)` with a string pattern: only the first occurrence is replaced. */
  function ReplaceFirst(s: string, pattern: string, replacement: string): string
    decreases |s|
  {
    if StartsWith(s, pattern) then replacement + s[|pattern|..]
    else if s == [] then []
    else [s[0]] + ReplaceFirst(s[1..], pattern, replacement)
  }

  /** `xs.join(sep)`. */
  function Join(xs: seq<string>, sep: string): string {
    if xs == [] then ""
    else if |xs| == 1 then xs[0]
    else xs[0] + sep + Join(xs[1..], sep)
  }

  function DigitChar(d: nat): char
    requires d < 10
  {
    "0123456789"[d]
  }

  /** Decimal rendering of a natural number, as `String(n)`. */
  function NatToString(n: nat): string
  {
    if n < 10 then [DigitChar(n)] else NatToString(n / 10) + [DigitChar(n % 10)]
  }

  /** Decimal rendering of an integer, as `String(n)`. */
  function IntToString(n: int): string
  {
    if n < 0 then "-" + NatToString(-n) else NatToString(n)
  }

  /** JavaScript's `%`, whose result takes the sign of the dividend (Dafny's `%` is Euclidean). */
  function JsRem(a: int, b: int): int
    requires b != 0
  {
    if a >= 0 then a % (if b < 0 then -b else b)
    else -((-a) % (if b < 0 then -b else b))
  }
}
