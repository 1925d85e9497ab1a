/**
 * Values and helpers shared by the PHP back end and the TypeScript front end:
 * an optional value, a result with an error, a dynamically typed value as it
 * crosses the model's boundary, the truthiness rules of both languages, and the
 * small string functions the core relies on (prefix test, splitting on a
 * character class, joining, decimal rendering and parsing).
 */
module Common {

  datatype Option<T> = None | Some(value: T)

  datatype Result<T, E> = Ok(value: T) | Err(error: E)

  /** A dynamically typed value. `Obj` is a PHP array with string keys or a
      JavaScript object; `List` a PHP list or a JavaScript array. */
  datatype Value =
    | Undefined
    | Null
    | Bool(b: bool)
    | Int(i: int)
    | Str(s: string)
    | List(items: seq<Value>)
    | Obj(fields: map<string, Value>)

  /** PHP converts a string to false exactly when it is "" or "0". */
  predicate PhpTruthyString(s: string) {
    s != "" && s != "0"
  }

  /** PHP's boolean conversion; an array is false exactly when it is empty. */
  predicate PhpTruthy(v: Value) {
    match v
    case Undefined => false
    case Null => false
    case Bool(b) => b
    case Int(i) => i != 0
    case Str(s) => PhpTruthyString(s)
    case List(items) => |items| > 0
    case Obj(fields) => |fields| > 0
  }

  /** JavaScript's boolean conversion; every object and array is true. */
  predicate JsTruthy(v: Value) {
    match v
    case Undefined => false
    case Null => false
    case Bool(b) => b
    case Int(i) => i != 0
    case Str(s) => s != ""
    case List(_) => true
    case Obj(_) => true
  }

  /** PHP's `$a[$k]` on a missing key yields null. */
  function Lookup(m: map<string, Value>, k: string): (v: Value)
    ensures k !in m ==> v == Null
    ensures k in m ==> v == m[k]
  {
    if k in m then m[k] else Null
  }

  predicate StartsWith(s: string, prefix: string) {
    |prefix| <= |s| && s[..|prefix|] == prefix
  }

  predicate NoneIn(s: string, sep: char -> bool) {
    forall i :: 0 <= i < |s| ==> !sep(s[i])
  }

  /** Index of the first character of `s` in the class `sep`, or |s|. */
  function FirstSep(s: string, sep: char -> bool): (i: nat)
    ensures i <= |s|
    ensures i < |s| ==> sep(s[i])
    ensures NoneIn(s[..i], sep)
  {
    if |s| == 0 then 0
    else if sep(s[0]) then 0
    else
      var j := FirstSep(s[1..], sep);
      assert s[..1 + j] == [s[0]] + s[1..][..j];
      1 + j
  }

  /** JavaScript's `s.split(re)` for a regular expression that is one
      character class: every separator character ends a part. */
  function Split(s: string, sep: char -> bool): (parts: seq<string>)
    ensures |parts| >= 1
    decreases |s|
  {
    var i := FirstSep(s, sep);
    if i == |s| then [s] else [s[..i]] + Split(s[i + 1..], sep)
  }

  lemma {:induction false} FirstSepOfClean(s: string, sep: char -> bool)
    requires NoneIn(s, sep)
    ensures FirstSep(s, sep) == |s|
  {
    if |s| > 0 {
      FirstSepOfClean(s[1..], sep);
    }
  }

  lemma {:induction false} FirstSepAfterClean(a: string, c: char, b: string, sep: char -> bool)
    requires NoneIn(a, sep) && sep(c)
    ensures FirstSep(a + [c] + b, sep) == |a|
  {
    if |a| > 0 {
      assert (a + [c] + b)[1..] == a[1..] + [c] + b;
      FirstSepAfterClean(a[1..], c, b, sep);
    }
  }

  /** A string free of separators is one part. */
  lemma SplitClean(s: string, sep: char -> bool)
    requires NoneIn(s, sep)
    ensures Split(s, sep) == [s]
  {
    FirstSepOfClean(s, sep);
  }

  /** Splitting peels off the part before the first separator. */
  lemma SplitCons(a: string, c: char, b: string, sep: char -> bool)
    requires NoneIn(a, sep) && sep(c)
    ensures Split(a + [c] + b, sep) == [a] + Split(b, sep)
  {
    var s := a + [c] + b;
    FirstSepAfterClean(a, c, b, sep);
    assert s[..|a|] == a;
    assert s[|a| + 1..] == b;
  }

  /** `parts.join(sep)`. */
  function Join(parts: seq<string>, sep: string): (r: string)
    ensures |parts| == 1 ==> r == parts[0]
    ensures |parts| == 0 ==> r == ""
  {
    if |parts| == 0 then ""
    else if |parts| == 1 then parts[0]
    else parts[0] + sep + Join(parts[1..], sep)
  }

  /** Splitting on a character undoes joining with it, when no part contains it. */
  lemma {:induction false} SplitJoin(parts: seq<string>, c: char, sep: char -> bool)
    requires |parts| >= 1 && sep(c)
    requires forall i :: 0 <= i < |parts| ==> NoneIn(parts[i], sep)
    ensures Split(Join(parts, [c]), sep) == parts
  {
    if |parts| == 1 {
      SplitClean(parts[0], sep);
    } else {
      SplitJoin(parts[1..], c, sep);
      assert parts[0] + [c] + Join(parts[1..], [c]) == Join(parts, [c]);
      SplitCons(parts[0], c, Join(parts[1..], [c]), sep);
    }
  }

  /** Joining with the separator undoes splitting on it, when the class is
      that one character. */
  lemma {:induction false} JoinSplit(s: string, c: char, sep: char -> bool)
    requires forall x :: sep(x) <==> x == c
    ensures Join(Split(s, sep), [c]) == s
    decreases |s|
  {
    var i := FirstSep(s, sep);
    if i < |s| {
      var rest := Split(s[i + 1..], sep);
      JoinSplit(s[i + 1..], c, sep);
      assert Split(s, sep) == [s[..i]] + rest;
      assert Join([s[..i]] + rest, [c]) == s[..i] + [c] + Join(rest, [c]);
      assert s == s[..i] + [c] + s[i + 1..];
    }
  }

  predicate IsDigit(c: char) {
    '0' <= c <= '9'
  }

  predicate AllDigits(s: string) {
    forall i :: 0 <= i < |s| ==> IsDigit(s[i])
  }

  function DigitChar(d: nat): (c: char)
    requires d < 10
    ensures IsDigit(c)
  {
    ['0', '1', '2', '3', '4', '5', '6', '7', '8', '9'][d]
  }

  function DigitOf(c: char): (d: nat)
    requires IsDigit(c)
    ensures d < 10
  {
    (c as int - '0' as int) as nat
  }

  lemma DigitRoundTrip(d: nat)
    requires d < 10
    ensures DigitOf(DigitChar(d)) == d
  {
  }

  /** The decimal rendering of a natural number, as JavaScript's `'' + n`. */
  function NatToString(n: nat): (s: string)
    ensures |s| >= 1 && AllDigits(s)
    decreases n
  {
    if n < 10 then [DigitChar(n)] else NatToString(n / 10) + [DigitChar(n % 10)]
  }

  function IntToString(i: int): string {
    if i < 0 then "-" + NatToString(-i) else NatToString(i)
  }

  /** The value of a string of decimal digits. */
  function DigitsValue(s: string): nat
    requires AllDigits(s)
    decreases |s|
  {
    if |s| == 0 then 0 else 10 * DigitsValue(s[..|s| - 1]) + DigitOf(s[|s| - 1])
  }

  /** Parsing undoes rendering. */
  lemma {:induction false} NatToStringRoundTrip(n: nat)
    ensures DigitsValue(NatToString(n)) == n
    decreases n
  {
    var s := NatToString(n);
    if n < 10 {
      DigitRoundTrip(n);
    } else {
      NatToStringRoundTrip(n / 10);
      DigitRoundTrip(n % 10);
      assert s[..|s| - 1] == NatToString(n / 10);
    }
  }

  /** Length of the longest prefix of `s` made of decimal digits. */
  function DigitPrefix(s: string): (k: nat)
    ensures k <= |s| && AllDigits(s[..k])
    ensures k < |s| ==> !IsDigit(s[k])
  {
    if |s| == 0 || !IsDigit(s[0]) then 0
    else
      var k := DigitPrefix(s[1..]);
      assert s[..1 + k] == [s[0]] + s[1..][..k];
      1 + k
  }

  lemma {:induction false} DigitPrefixOfDigits(s: string)
    requires AllDigits(s)
    ensures DigitPrefix(s) == |s|
  {
    if |s| > 0 {
      DigitPrefixOfDigits(s[1..]);
    }
  }

  /** PHP's string conversion, as used by the `.` operator. */
  function PhpToString(v: Value): string {
    match v
    case Undefined => ""
    case Null => ""
    case Bool(b) => if b then "1" else ""
    case Int(i) => IntToString(i)
    case Str(s) => s
    case List(_) => "Array"
    case Obj(_) => "Array"
  }

  /** JavaScript's string conversion, as used by `+` with a string. An
      array joins its elements with ",", null and undefined elements giving
      the empty string. */
  function JsToString(v: Value): string
    decreases v, 1
  {
    match v
    case Undefined => "undefined"
    case Null => "null"
    case Bool(b) => if b then "true" else "false"
    case Int(i) => IntToString(i)
    case Str(s) => s
    case List(items) => JsJoinItems(items, v)
    case Obj(_) => "[object Object]"
  }

  function JsJoinItems(items: seq<Value>, whole: Value): string
    requires forall i :: 0 <= i < |items| ==> items[i] < whole
    decreases whole, 0, |items|
  {
    if |items| == 0 then ""
    else
      var first := if items[0].Null? || items[0].Undefined? then "" else JsToString(items[0]);
      if |items| == 1 then first else first + "," + JsJoinItems(items[1..], whole)
  }

  /** The elements of an array value; anything else has none. */
  function Items(v: Value): seq<Value> {
    if v.List? then v.items else []
  }

  /** A request the front end sends: the verb, the URL and the body. */
  datatype HttpRequest = HttpRequest(verb: string, url: string, body: Value)

  /** What a save step does: resolve at once without a request, or send one. */
  datatype Planned = Skipped(resolved: bool) | Sent(request: HttpRequest)

  /** An inbound HTTP request: its input fields and its headers, header
      names already folded to lower case. */
  datatype Request = Request(input: map<string, Value>, headers: map<string, Value>)

  /** `$request->get(key)`: the input field, or null. */
  function Input(r: Request, key: string): Value {
    Lookup(r.input, key)
  }

  /** `$request->headers->get(name)`: the header, or null. */
  function Header(r: Request, name: string): Value {
    Lookup(r.headers, name)
  }

  /** A `ValidationException`: the field and its message. */
  datatype ValidationError = ValidationError(field: string, message: string)
}
