/**
 * Small pieces of JavaScript value semantics that the portal's TypeScript
 * code relies on: optional values, the string form of a number, the string
 * form of `undefined`, truthiness of strings, and case mapping.
 */
module JsText {

  datatype Option<+T> = None | Some(value: T)

  /** A numeric property that may be missing (`undefined`), `null` in JSON, or a number. */
  datatype OptNum = Undefined | Null | Num(n: int)

  /** The decimal digit for 0 <= d < 10. */
  function Digit(d: nat): (c: char)
    requires d < 10
    ensures '0' <= c <= '9'
    ensures c as int - '0' as int == d
  {
    ['0', '1', '2', '3', '4', '5', '6', '7', '8', '9'][d]
  }

  predicate IsDigit(c: char) {
    '0' <= c <= '9'
  }

  /** `String(n)` for a non-negative integer: its decimal digits, no leading zeros. */
  function NatToString(n: nat): (s: string)
    ensures |s| >= 1
    ensures forall i :: 0 <= i < |s| ==> IsDigit(s[i])
    ensures n >= 10 <==> |s| >= 2
  {
    if n < 10 then [Digit(n)] else NatToString(n / 10) + [Digit(n % 10)]
  }

  /** `String(n)` for an integer: a minus sign before the digits of a negative number. */
  function IntToString(n: int): (s: string)
    ensures |s| >= 1
    ensures s[0] == '-' <==> n < 0
    ensures forall i :: 1 <= i < |s| ==> IsDigit(s[i])
    ensures IsDigit(s[0]) || s[0] == '-'
  {
    if n < 0 then "-" + NatToString(-n) else NatToString(n)
  }

  lemma {:induction false} NatToStringInjective(a: nat, b: nat)
    requires NatToString(a) == NatToString(b)
    ensures a == b
  {
    var sa, sb := NatToString(a), NatToString(b);
    if a >= 10 && b >= 10 {
      assert NatToString(a / 10) == sa[..|sa| - 1];
      assert NatToString(b / 10) == sb[..|sb| - 1];
      NatToStringInjective(a / 10, b / 10);
      assert Digit(a % 10) == sa[|sa| - 1] == Digit(b % 10);
    } else if a < 10 && b < 10 {
      assert Digit(a) == sa[0] == Digit(b);
    }
  }

  /** Different numbers print differently, so comparing printed ids compares the ids. */
  lemma {:induction false} IntToStringInjective(a: int, b: int)
    requires IntToString(a) == IntToString(b)
    ensures a == b
  {
    var s := IntToString(a);
    if a < 0 {
      assert b < 0;
      assert NatToString(-a) == s[1..] == NatToString(-b);
      NatToStringInjective(-a, -b);
    } else {
      assert b >= 0;
      NatToStringInjective(a, b);
    }
  }

  /** The string that `'prefix' + v` yields for an optional numeric property. */
  function OptNumToString(v: OptNum): (s: string)
    ensures v.Num? <==> (|s| >= 1 && (IsDigit(s[0]) || s[0] == '-'))
  {
    match v
    case Undefined => "undefined"
    case Null => "null"
    case Num(n) => IntToString(n)
  }

  lemma {:induction false} OptNumToStringInjective(a: OptNum, b: OptNum)
    requires OptNumToString(a) == OptNumToString(b)
    ensures a == b
  {
    match a
    case Num(x) =>
      assert b.Num?;
      IntToStringInjective(x, b.n);
    case Undefined =>
      assert b != Null;
    case Null =>
      assert b != Undefined;
  }

  /** A prefixed key such as `'kat01_' + id`: equal keys have equal ids. */
  lemma PrefixCancel(p: string, x: string, y: string)
    requires p + x == p + y
    ensures x == y
  {
    assert x == (p + x)[|p|..];
    assert y == (p + y)[|p|..];
  }

  /** JavaScript truthiness of an optional string: present and not empty. */
  predicate Truthy(v: Option<string>) {
    v.Some? && v.value != ""
  }

  /** JavaScript truthiness of an optional number: present, not null and not 0. */
  predicate TruthyNum(v: OptNum) {
    v.Num? && v.n != 0
  }

  /** The text a possibly undefined string turns into when concatenated or assigned to `innerHTML`. */
  function Str(v: Option<string>): (s: string)
    ensures v.None? ==> s == "undefined"
    ensures v.Some? ==> s == v.value
  {
    match v
    case None => "undefined"
    case Some(x) => x
  }

  /** `toLowerCase` restricted to the ASCII letters. */
  function LowerChar(c: char): (d: char)
    ensures 'A' <= c <= 'Z' ==> d as int == c as int + 32
    ensures !('A' <= c <= 'Z') ==> d == c
  {
    if 'A' <= c <= 'Z' then (c as int + 32) as char else c
  }

  /** `toUpperCase` restricted to the ASCII letters. */
  function UpperChar(c: char): (d: char)
    ensures 'a' <= c <= 'z' ==> d as int == c as int - 32
    ensures !('a' <= c <= 'z') ==> d == c
  {
    if 'a' <= c <= 'z' then (c as int - 32) as char else c
  }

  function ToLower(s: string): (r: string)
    ensures |r| == |s|
    ensures forall i :: 0 <= i < |s| ==> r[i] == LowerChar(s[i])
  {
    if s == [] then [] else [LowerChar(s[0])] + ToLower(s[1..])
  }

  function ToUpper(s: string): (r: string)
    ensures |r| == |s|
    ensures forall i :: 0 <= i < |s| ==> r[i] == UpperChar(s[i])
  {
    if s == [] then [] else [UpperChar(s[0])] + ToUpper(s[1..])
  }

  /** Lower-casing is idempotent, so comparing lower-cased ids is an equivalence. */
  lemma ToLowerIdempotent(s: string)
    ensures ToLower(ToLower(s)) == ToLower(s)
  {
    assert forall i :: 0 <= i < |s| ==> LowerChar(LowerChar(s[i])) == LowerChar(s[i]);
  }

  /** Upper- and lower-case spellings of an id compare equal after lower-casing. */
  lemma LowerOfUpper(s: string)
    ensures ToLower(ToUpper(s)) == ToLower(s)
  {
    assert forall i :: 0 <= i < |s| ==> LowerChar(UpperChar(s[i])) == LowerChar(s[i]);
  }

  /** Sequence concatenation is associative (stated once so that proofs need not rediscover it). */
  lemma AppendAssoc<T>(x: seq<T>, y: seq<T>, z: seq<T>)
    ensures (x + y) + z == x + (y + z)
  {
  }
}
