/**
 * The front end's paginator over a collection endpoint. It asks for a window
 * of entities with a `Range: entities=<from>-<to>` header, reads the total
 * back from the response's `Content-Range: entities <from>-<to>/<count>`
 * header (the custom range unit of section 2.2 of RFC 7233, in the layout of
 * section 4.2), and keeps its place between calls. The HTTP exchange itself
 * is a parameter: the model decides which request is sent and what a
 * response does to the paginator.
 */
module Pagination {
  import opened Common

  const DefaultCount: int := 10

  const NoMoreResults: string := "No more results found!"

  /** A JavaScript number as this code produces them: an integer or NaN. */
  datatype JsNum = Num(n: int) | NaN

  /** A number is true in a condition unless it is 0 or NaN. */
  predicate NumTruthy(x: JsNum) {
    x.Num? && x.n != 0
  }

  /** The characters of the class `\s` in a JavaScript regular expression. */
  predicate IsJsSpace(c: char) {
    c == ' ' || c == '\t' || c == '\n' || c == '\r' || c == '\U{000B}' || c == '\U{000C}' ||
    c == '\U{00A0}' || c == '\U{1680}' || ('\U{2000}' <= c <= '\U{200A}') || c == '\U{2028}' ||
    c == '\U{2029}' || c == '\U{202F}' || c == '\U{205F}' || c == '\U{3000}' || c == '\U{FEFF}'
  }

  /** The class `[\s\/]` the header is split on. */
  predicate IsHeaderSeparator(c: char) {
    IsJsSpace(c) || c == '/'
  }

  predicate IsDash(c: char) {
    c == '-'
  }

  /** A leading sign, if any, and the rest. */
  function SignOf(s: string): (r: (bool, string))
    ensures |r.1| <= |s|
  {
    if |s| > 0 && (s[0] == '-' || s[0] == '+') then (s[0] == '-', s[1..]) else (false, s)
  }

  /** `parseInt(s)` on a string free of white space: an optional sign, then
      the longest run of decimal digits; NaN when there is none. */
  function ParseInt(s: string): (r: JsNum)
    ensures r.NaN? <==> DigitPrefix(SignOf(s).1) == 0
  {
    var (negative, body) := SignOf(s);
    var k := DigitPrefix(body);
    if k == 0 then NaN
    else
      var magnitude: int := DigitsValue(body[..k]);
      Num(if negative then -magnitude else magnitude)
  }

  /** The optional exponent of a decimal literal. */
  predicate IsExponent(e: string) {
    e == "" ||
    (|e| >= 2 && (e[0] == 'e' || e[0] == 'E') &&
     var digits := SignOf(e[1..]).1; |digits| > 0 && AllDigits(digits))
  }

  /** An unsigned decimal literal: digits with an optional fraction, or a
      fraction alone, then an optional exponent. */
  predicate IsUnsignedDecimal(b: string) {
    var k := DigitPrefix(b);
    var rest := b[k..];
    if |rest| > 0 && rest[0] == '.' then
      var f := DigitPrefix(rest[1..]);
      (k > 0 || f > 0) && IsExponent(rest[1..][f..])
    else k > 0 && IsExponent(rest)
  }

  /** `!isNaN(Number(s))` on a string free of white space: the empty string
      (which is 0), or a signed decimal literal or `Infinity`. */
  predicate IsNumeric(s: string) {
    s == "" || (var body := SignOf(s).1; body == "Infinity" || IsUnsignedDecimal(body))
  }

  /** The total as the header gives it: a number, or the string kept when it
      is not numeric (`*` for an unknown total). */
  datatype Count = CountNum(num: JsNum) | CountStr(s: string)

  datatype RangeHeaderData = RangeHeaderData(entityName: string, from: JsNum, to: JsNum, count: Count)

  function InvalidHeader(header: string): string {
    "Invalid range header; expected pattern: `entities 1-10/50`, got `" + header + "`"
  }

  /** `parseContentRangeHeader(header)`: three parts on white space or '/',
      the middle one two parts on '-'; anything else is a
      `PaginatorException`. */
  function ParseContentRangeHeader(header: string): (r: Result<RangeHeaderData, string>)
    ensures r.Err? <==>
      |Split(header, IsHeaderSeparator)| != 3 || |Split(Split(header, IsHeaderSeparator)[1], IsDash)| != 2
    ensures r.Err? ==> r.error == InvalidHeader(header)
    ensures r.Ok? ==> r.value.entityName == Split(header, IsHeaderSeparator)[0]
    ensures r.Ok? ==>
      var count := Split(header, IsHeaderSeparator)[2];
      r.value.count == if IsNumeric(count) then CountNum(ParseInt(count)) else CountStr(count)
  {
    var parts := Split(header, IsHeaderSeparator);
    if |parts| != 3 then Err(InvalidHeader(header))
    else
      var rangeParts := Split(parts[1], IsDash);
      if |rangeParts| != 2 then Err(InvalidHeader(header))
      else
        var count := parts[2];
        Ok(RangeHeaderData(parts[0], ParseInt(rangeParts[0]), ParseInt(rangeParts[1]),
                           if IsNumeric(count) then CountNum(ParseInt(count)) else CountStr(count)))
  }

  /** `getRangeHeader(from, to)`. */
  function RangeHeader(from: int, to: int): string {
    "entities=" + IntToString(from) + "-" + IntToString(to)
  }

  lemma NoSeparatorInDigits(s: string, sep: char -> bool)
    requires AllDigits(s)
    requires forall c :: sep(c) ==> !IsDigit(c)
    ensures NoneIn(s, sep)
  {
  }

  /** Decimal rendering is read back by `parseInt`. */
  lemma ParseIntOfNat(n: nat)
    ensures ParseInt(NatToString(n)) == Num(n)
  {
    var s := NatToString(n);
    assert SignOf(s).1 == s by {
      assert IsDigit(s[0]);
    }
    DigitPrefixOfDigits(s);
    assert s[..|s|] == s;
    NatToStringRoundTrip(n);
  }

  lemma IsNumericOfNat(n: nat)
    ensures IsNumeric(NatToString(n))
  {
    var s := NatToString(n);
    assert SignOf(s).1 == s by {
      assert IsDigit(s[0]);
    }
    DigitPrefixOfDigits(s);
    assert s[|s|..] == "";
  }

  /** The header a Range request for `from`..`to` asks for is read back as
      those two numbers: after the `entities=` unit, the ends split on '-'
      and `parseInt` gives them back. */
  lemma RangeHeaderRoundTrip(from: nat, to: nat)
    ensures StartsWith(RangeHeader(from, to), "entities=")
    ensures var ends := Split(RangeHeader(from, to)[9..], IsDash);
      |ends| == 2 && ParseInt(ends[0]) == Num(from) && ParseInt(ends[1]) == Num(to)
  {
    var a, b := NatToString(from), NatToString(to);
    assert RangeHeader(from, to) == "entities=" + (a + "-" + b);
    assert RangeHeader(from, to)[9..] == a + ['-'] + b;
    NoSeparatorInDigits(a, IsDash);
    NoSeparatorInDigits(b, IsDash);
    SplitCons(a, '-', b, IsDash);
    SplitClean(b, IsDash);
    ParseIntOfNat(from);
    ParseIntOfNat(to);
  }

  /** The range `<from>-<to>` splits into its two ends, read back by
      `parseInt`. */
  lemma RangeEnds(from: nat, to: nat)
    ensures var ends := Split(NatToString(from) + ['-'] + NatToString(to), IsDash);
      |ends| == 2 && ParseInt(ends[0]) == Num(from) && ParseInt(ends[1]) == Num(to)
  {
    var a, b := NatToString(from), NatToString(to);
    NoSeparatorInDigits(a, IsDash);
    NoSeparatorInDigits(b, IsDash);
    SplitCons(a, '-', b, IsDash);
    SplitClean(b, IsDash);
    ParseIntOfNat(from);
    ParseIntOfNat(to);
  }

  /** `<name> <range>/<count>` splits into its three parts. */
  lemma HeaderParts(name: string, range: string, count: string)
    requires NoneIn(name, IsHeaderSeparator) && NoneIn(range, IsHeaderSeparator) && NoneIn(count, IsHeaderSeparator)
    ensures Split(name + [' '] + (range + ['/'] + count), IsHeaderSeparator) == [name, range, count]
  {
    SplitCons(name, ' ', range + ['/'] + count, IsHeaderSeparator);
    SplitCons(range, '/', count, IsHeaderSeparator);
    SplitClean(count, IsHeaderSeparator);
  }

  /** A header in the pattern `entities <from>-<to>/<count>` is read back
      with the count numeric when it is numeric and as a string otherwise. */
  lemma ContentRangeParts(name: string, from: nat, to: nat, count: string)
    requires NoneIn(name, IsHeaderSeparator) && NoneIn(count, IsHeaderSeparator)
    ensures ParseContentRangeHeader(name + [' '] + (NatToString(from) + ['-'] + NatToString(to) + ['/'] + count)) ==
      Ok(RangeHeaderData(name, Num(from), Num(to),
                         if IsNumeric(count) then CountNum(ParseInt(count)) else CountStr(count)))
  {
    var range := NatToString(from) + ['-'] + NatToString(to);
    RangeClean(from, to);
    HeaderParts(name, range, count);
    RangeEnds(from, to);
  }

  /** A range of two numbers holds no header separator. */
  lemma RangeClean(from: nat, to: nat)
    ensures NoneIn(NatToString(from) + ['-'] + NatToString(to), IsHeaderSeparator)
  {
    var a, b := NatToString(from), NatToString(to);
    NoSeparatorInDigits(a, IsHeaderSeparator);
    NoSeparatorInDigits(b, IsHeaderSeparator);
    var range := a + ['-'] + b;
    forall i | 0 <= i < |range|
      ensures !IsHeaderSeparator(range[i])
    {
      if i < |a| {
        assert range[i] == a[i];
      } else if i > |a| {
        assert range[i] == b[i - |a| - 1];
      }
    }
  }

  /** A header written as `<name> <from>-<to>/<count>` from numbers is read
      back exactly. */
  lemma ContentRangeRoundTrip(name: string, from: nat, to: nat, count: nat)
    requires NoneIn(name, IsHeaderSeparator)
    ensures ParseContentRangeHeader(name + [' '] + (NatToString(from) + ['-'] + NatToString(to) + ['/'] + NatToString(count))) ==
      Ok(RangeHeaderData(name, Num(from), Num(to), CountNum(Num(count))))
  {
    NoSeparatorInDigits(NatToString(count), IsHeaderSeparator);
    ContentRangeParts(name, from, to, NatToString(count));
    ParseIntOfNat(count);
    IsNumericOfNat(count);
  }

  /** An unknown total `*` is kept as a string. */
  lemma UnknownTotalKept(name: string, from: nat, to: nat)
    requires NoneIn(name, IsHeaderSeparator)
    ensures ParseContentRangeHeader(name + [' '] + (NatToString(from) + ['-'] + NatToString(to) + ['/'] + "*")) ==
      Ok(RangeHeaderData(name, Num(from), Num(to), CountStr("*")))
  {
    ContentRangeParts(name, from, to, "*");
    StarNotNumeric();
  }

  /** `Number('*')` is NaN. */
  lemma StarNotNumeric()
    ensures !IsNumeric("*")
  {
    assert SignOf("*").1 == "*";
    assert DigitPrefix("*") == 0;
    assert "*"[0..] == "*";
  }

  /** An empty total is numeric (`Number('')` is 0) but `parseInt` makes it
      NaN, which becomes the total; a NaN total limits no window. */
  lemma EmptyTotalIsNaN(name: string, from: nat, to: nat, count: int, index: int)
    requires NoneIn(name, IsHeaderSeparator)
    ensures ParseContentRangeHeader(name + [' '] + (NatToString(from) + ['-'] + NatToString(to) + ['/'] + "")) ==
      Ok(RangeHeaderData(name, Num(from), Num(to), CountNum(NaN)))
    ensures Window(Some(NaN), count, index) == Window(None, count, index)
  {
    ContentRangeParts(name, from, to, "");
    assert DigitPrefix("") == 0;
  }

  /** A header that is not in three parts is refused. */
  lemma MissingTotalRefused()
    ensures ParseContentRangeHeader("entities 0-9") == Err(InvalidHeader("entities 0-9"))
  {
    var header := "entities 0-9";
    assert header == "entities" + [' '] + "0-9";
    assert NoneIn("entities", IsHeaderSeparator);
    assert NoneIn("0-9", IsHeaderSeparator);
    SplitCons("entities", ' ', "0-9", IsHeaderSeparator);
    SplitClean("0-9", IsHeaderSeparator);
  }

  /** What the paginator does for one window: refuse without a request, or
      send a GET with this Range header. */
  datatype Fetch = Refused(message: string) | Get(range: string)

  /** `getResponse(count, index)` up to the request: no request once a
      known total is reached; otherwise the window from `index`, its end
      clamped to the last entity when the total is known. */
  function Window(total: Option<JsNum>, count: int, index: int): (f: Fetch)
    ensures (total.Some? && NumTruthy(total.value) && index >= total.value.n) <==> f.Refused?
    ensures f.Refused? ==> f.message == NoMoreResults
    ensures f.Get? && total.Some? && NumTruthy(total.value) ==>
      f.range == RangeHeader(index, if index + count - 1 >= total.value.n then total.value.n - 1 else index + count - 1)
    ensures f.Get? && !(total.Some? && NumTruthy(total.value)) ==> f.range == RangeHeader(index, index + count - 1)
  {
    var known := total.Some? && NumTruthy(total.value);
    if known && index >= total.value.n then Refused(NoMoreResults)
    else
      var last := index + count - 1;
      var last' := if known && last >= total.value.n then total.value.n - 1 else last;
      Get(RangeHeader(index, last'))
  }

  /** A request never reaches past a known total: its window starts before
      the total and ends at or before the last entity. */
  lemma WindowWithinTotal(total: int, count: int, index: nat)
    requires total != 0
    ensures var f := Window(Some(Num(total)), count, index);
      f.Get? ==>
        index < total &&
        exists last :: last <= total - 1 && last <= index + count - 1 && f.range == RangeHeader(index, last)
  {
    var f := Window(Some(Num(total)), count, index);
    if f.Get? {
      var last := if index + count - 1 >= total then total - 1 else index + count - 1;
      assert f.range == RangeHeader(index, last);
    }
  }

  /** What the endpoint answered: a failure (such as status 416), or the
      Content-Range header (null when absent) and the entities. */
  datatype Response = Failure | Success(contentRange: Value, data: seq<Value>)

  class Paginator {
    const url: string
    var modelFactory: Value -> Value
    var count: int
    var currentIndex: int
    var entityCountTotal: Option<JsNum>

    /** A paginator starts at index 0 with the default count, no total and
        a model factory that returns the data as it is. */
    constructor (url: string)
      ensures this.url == url && forall v :: modelFactory(v) == v
      ensures count == DefaultCount && currentIndex == 0 && entityCountTotal == None
    {
      this.url := url;
      modelFactory := v => v;
      count := DefaultCount;
      currentIndex := 0;
      entityCountTotal := None;
    }

    /** `setModelFactory(modelFactory)`. */
    method SetModelFactory(modelFactory: Value -> Value)
      modifies this
      ensures this.modelFactory == modelFactory
      ensures count == old(count) && currentIndex == old(currentIndex) && entityCountTotal == old(entityCountTotal)
    {
      this.modelFactory := modelFactory;
    }

    /** `setCount(count)`. */
    method SetCount(count: int)
      modifies this
      ensures this.count == count
      ensures currentIndex == old(currentIndex) && entityCountTotal == old(entityCountTotal)
      ensures modelFactory == old(modelFactory)
    {
      this.count := count;
    }

    /** `getCount()`. */
    function GetCount(): (c: int)
      reads this
      ensures c == count
    {
      count
    }

    /** `reset(index)`; the caller's default is 0. */
    method Reset(index: int)
      modifies this
      ensures currentIndex == index
      ensures count == old(count) && entityCountTotal == old(entityCountTotal) && modelFactory == old(modelFactory)
    {
      currentIndex := index;
    }

    /** `getResponse(count, index)` up to the request. */
    function GetResponse(count: int, index: int): (f: Fetch)
      reads this
      ensures f == Window(entityCountTotal, count, index)
    {
      Window(entityCountTotal, count, index)
    }

    /** `getNext(count)`: the window at the current index, `count` given or
      the configured one; the index then advances by the configured count,
      whatever was asked for. */
    method GetNext(requested: Option<int>) returns (f: Fetch)
      modifies this
      ensures f == Window(old(entityCountTotal), if requested.Some? then requested.value else old(count), old(currentIndex))
      ensures currentIndex == old(currentIndex) + old(count)
      ensures count == old(count) && entityCountTotal == old(entityCountTotal) && modelFactory == old(modelFactory)
    {
      var n := if requested.Some? then requested.value else count;
      f := GetResponse(n, currentIndex);
      currentIndex := currentIndex + count;
    }

    /** `getRange(first, last)`: `last - first + 1` entities from `first`. */
    function GetRange(first: int, last: int): (f: Fetch)
      reads this
      ensures !(entityCountTotal.Some? && NumTruthy(entityCountTotal.value)) ==> f == Get(RangeHeader(first, last))
      ensures (entityCountTotal.Some? && NumTruthy(entityCountTotal.value) &&
               first < entityCountTotal.value.n && last < entityCountTotal.value.n) ==>
        f == Get(RangeHeader(first, last))
    {
      GetResponse(last - first + 1, first)
    }

    /** `processContentRangeHeader(headers)`: a missing or empty header
      changes nothing; a malformed one throws (`ok` false); a numeric count
      becomes the total, a string one leaves it. */
    method ProcessContentRangeHeader(header: Value) returns (ok: bool)
      modifies this
      ensures count == old(count) && currentIndex == old(currentIndex) && modelFactory == old(modelFactory)
      ensures !JsTruthy(header) ==> ok && entityCountTotal == old(entityCountTotal)
      ensures JsTruthy(header) && header.Str? ==>
        var parsed := ParseContentRangeHeader(header.s);
        ok == parsed.Ok? &&
        entityCountTotal == if parsed.Ok? && parsed.value.count.CountNum? then Some(parsed.value.count.num)
                            else old(entityCountTotal)
      ensures JsTruthy(header) && !header.Str? ==> !ok && entityCountTotal == old(entityCountTotal)
    {
      if !JsTruthy(header) {
        return true;
      }
      if !header.Str? {
        return false;
      }
      var parsed := ParseContentRangeHeader(header.s);
      if parsed.Err? {
        return false;
      }
      if parsed.value.count.CountNum? {
        entityCountTotal := Some(parsed.value.count.num);
      }
      return true;
    }

    /** The response handler: a failed request, or a header that throws,
      rejects with "No more results found!"; otherwise the header is
      processed and every entity goes through the model factory. */
    method Receive(response: Response) returns (r: Result<seq<Value>, string>)
      modifies this
      ensures count == old(count) && currentIndex == old(currentIndex) && modelFactory == old(modelFactory)
      ensures response.Failure? ==> r == Err(NoMoreResults) && entityCountTotal == old(entityCountTotal)
      ensures r.Ok? ==>
        response.Success? && |r.value| == |response.data| &&
        forall i :: 0 <= i < |r.value| ==> r.value[i] == modelFactory(response.data[i])
      ensures r.Err? ==> r.error == NoMoreResults
      ensures response.Success? ==>
        var h := response.contentRange;
        (r.Ok? <==> !JsTruthy(h) || (h.Str? && ParseContentRangeHeader(h.s).Ok?)) &&
        entityCountTotal ==
          if JsTruthy(h) && h.Str? && ParseContentRangeHeader(h.s).Ok? && ParseContentRangeHeader(h.s).value.count.CountNum?
          then Some(ParseContentRangeHeader(h.s).value.count.num)
          else old(entityCountTotal)
    {
      if response.Failure? {
        return Err(NoMoreResults);
      }
      var ok := ProcessContentRangeHeader(response.contentRange);
      if !ok {
        return Err(NoMoreResults);
      }
      var models: seq<Value> := [];
      for i := 0 to |response.data|
        invariant |models| == i
        invariant forall j :: 0 <= j < i ==> models[j] == modelFactory(response.data[j])
      {
        models := models + [modelFactory(response.data[i])];
      }
      return Ok(models);
    }
  }

  /** Two `getNext()` calls with the default count ask for adjacent windows
      while no total is known. */
  method ConsecutiveWindows(p: Paginator) returns (first: Fetch, second: Fetch)
    requires p.entityCountTotal == None
    modifies p
    ensures first == Get(RangeHeader(old(p.currentIndex), old(p.currentIndex) + old(p.count) - 1))
    ensures second == Get(RangeHeader(old(p.currentIndex) + old(p.count), old(p.currentIndex) + 2 * old(p.count) - 1))
  {
    ghost var index, count := p.currentIndex, p.count;
    first := p.GetNext(None);
    second := p.GetNext(None);
    UnknownTotalWindow(count, index);
    UnknownTotalWindow(count, index + count);
    assert (index + count) + count - 1 == index + 2 * count - 1;
  }

  /** Without a total, a window is the `count` entities from `index`. */
  lemma UnknownTotalWindow(count: int, index: int)
    ensures Window(None, count, index) == Get(RangeHeader(index, index + count - 1))
  {
  }
}
