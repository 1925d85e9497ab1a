/**
 * How the API renders an uncaught exception: a JSON body with a message,
 * the exception's HTTP status or 500, and, in debug mode, the exception's
 * details with its stack trace split into lines.
 */
module BaseController {
  import opened Common

  /** What `renderException` reads from an exception. `httpStatus` is the
      status code of an `HttpExceptionInterface`, and None for any other
      exception. */
  datatype Exception = Exception(
    className: string,
    message: string,
    code: int,
    file: string,
    line: int,
    trace: string,
    httpStatus: Option<int>)

  datatype JsonResponse = JsonResponse(body: map<string, Value>, status: int)

  const DefaultMessage: string := "An error occurred"

  /** The trace as lines: `explode("\n", trace)`. */
  function TraceLines(trace: string): (lines: seq<string>)
    ensures |lines| >= 1
    ensures Join(lines, "\n") == trace
  {
    JoinSplit(trace, '\n', c => c == '\n');
    Split(trace, c => c == '\n')
  }

  function StrList(items: seq<string>): (v: Value)
    ensures v.List? && |v.items| == |items|
    ensures forall i :: 0 <= i < |items| ==> v.items[i] == Str(items[i])
  {
    List(seq(|items|, i requires 0 <= i < |items| => Str(items[i])))
  }

  /** The debug record: the exception's class, raw message, code, file,
      line and trace lines. */
  function DebugData(e: Exception): map<string, Value> {
    map[
      "exception" := Str(e.className),
      "message" := Str(e.message),
      "code" := Int(e.code),
      "file" := Str(e.file),
      "line" := Int(e.line),
      "trace" := StrList(TraceLines(e.trace))]
  }

  /** `renderException(request, e, debug)`. */
  function RenderException(e: Exception, debug: bool): (r: JsonResponse)
    ensures r.body.Keys == if debug then {"message", "debug"} else {"message"}
    ensures PhpTruthyString(e.message) ==> r.body["message"] == Str(e.message)
    ensures !PhpTruthyString(e.message) ==> r.body["message"] == Str(DefaultMessage)
    ensures r.status == (if e.httpStatus.Some? then e.httpStatus.value else 500)
    ensures debug ==>
      r.body["debug"].Obj? && "message" in r.body["debug"].fields &&
      r.body["debug"].fields["message"] == Str(e.message)
  {
    var message := if PhpTruthyString(e.message) then e.message else DefaultMessage;
    var body := map["message" := Str(message)];
    var status := if e.httpStatus.Some? then e.httpStatus.value else 500;
    JsonResponse(if debug then body["debug" := Obj(DebugData(e))] else body, status)
  }

  /** The message "0" is falsy in PHP, so it is replaced as well; the debug
      record keeps it. */
  lemma ZeroMessageReplaced(e: Exception)
    requires e.message == "0"
    ensures RenderException(e, true).body["message"] == Str(DefaultMessage)
    ensures RenderException(e, true).body["debug"].fields["message"] == Str("0")
  {
  }

  /** The debug trace lines joined with line feeds give the trace back. */
  lemma DebugTraceRoundTrip(e: Exception)
    ensures "trace" in RenderException(e, true).body["debug"].fields
    ensures var t := RenderException(e, true).body["debug"].fields["trace"];
      t.List? && (forall i :: 0 <= i < |t.items| ==> t.items[i].Str?) &&
      Join(seq(|t.items|, i requires 0 <= i < |t.items| => t.items[i].s), "\n") == e.trace
  {
    var lines := TraceLines(e.trace);
    var t := StrList(lines);
    assert seq(|t.items|, i requires 0 <= i < |t.items| => t.items[i].s) == lines;
  }
}
