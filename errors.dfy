/** JSON:API error objects (jsonapi.org/format, "Errors") and the constructors
    for bad-request errors. */
module Errors {
  import opened Wrappers
  import opened Values

  /** Links of an error: the one that leads to further details. */
  datatype ErrorLinks = ErrorLinks(about: string)

  /** The query parameter or the JSON pointer that caused an error. */
  datatype ErrorSource = ErrorSource(parameter: string, pointer: string)

  /** An error object.  The HTTP status is held as an integer; a nil pointer
      or nil map in the Go structure is `None`. */
  datatype Error = Error(
    id: string,
    links: Option<ErrorLinks>,
    status: int,
    code: string,
    title: string,
    detail: string,
    source: Option<ErrorSource>,
    meta: Option<Map>)

  const StatusBadRequest: int := 400

  /** The text that net/http gives for status 400. */
  const BadRequestText: string := "Bad Request"

  /** The error with no field set (Go's zero value). */
  const ZeroError: Error := Error("", None, 0, "", "", "", None, None)

  /** The text representation used for logging: title, a colon and a space,
      then the detail. */
  function Message(e: Error): (s: string)
    ensures |s| == |e.title| + 2 + |e.detail|
    ensures s[..|e.title|] == e.title
    ensures s[|e.title|..|e.title| + 2] == ": "
    ensures s[|e.title| + 2..] == e.detail
  {
    e.title + ": " + e.detail
  }

  /** A bad-request error carrying `detail` and nothing else. */
  function BadRequest(detail: string): (e: Error)
    ensures e.status == StatusBadRequest && e.title == BadRequestText && e.detail == detail
    ensures e.source == None
    ensures e == ZeroError.(status := e.status, title := e.title, detail := e.detail)
  {
    ZeroError.(status := StatusBadRequest, title := BadRequestText, detail := detail)
  }

  /** A bad-request error whose source names the offending query parameter. */
  function BadRequestParam(detail: string, param: string): (e: Error)
    ensures e.status == StatusBadRequest && e.title == BadRequestText && e.detail == detail
    ensures e.source == Some(ErrorSource(param, ""))
    ensures e == ZeroError.(status := e.status, title := e.title, detail := e.detail, source := e.source)
  {
    ZeroError.(status := StatusBadRequest, title := BadRequestText, detail := detail,
               source := Some(ErrorSource(param, "")))
  }

  /** The two constructors differ in the source alone. */
  lemma BadRequestParamRefinesBadRequest(detail: string, param: string)
    ensures BadRequestParam(detail, param).(source := None) == BadRequest(detail)
    ensures BadRequestParam(detail, param) != BadRequest(detail)
  {
  }

  /** The message of a bad-request error is "Bad Request: " followed by the
      detail, whichever constructor built it. */
  lemma BadRequestMessage(detail: string, param: string)
    ensures Message(BadRequest(detail)) == "Bad Request: " + detail
    ensures Message(BadRequestParam(detail, param)) == Message(BadRequest(detail))
  {
  }

  /** The message depends on the title and the detail only. */
  lemma MessageOnlyTitleAndDetail(e1: Error, e2: Error)
    requires e1.title == e2.title && e1.detail == e2.detail
    ensures Message(e1) == Message(e2)
  {
  }

  /** Given the title, the message determines the detail. */
  lemma {:induction false} MessageDeterminesDetail(e1: Error, e2: Error)
    requires e1.title == e2.title && Message(e1) == Message(e2)
    ensures e1.detail == e2.detail
  {
    var n := |e1.title| + 2;
    assert e1.detail == Message(e1)[n..];
    assert e2.detail == Message(e2)[n..];
  }

  /** Without the title the message is ambiguous: a colon inside the title or
      the detail cannot be told apart from the separator. */
  lemma MessageAmbiguous()
    ensures var e1 := ZeroError.(title := "a", detail := "b: c");
            var e2 := ZeroError.(title := "a: b", detail := "c");
            e1.detail != e2.detail && Message(e1) == Message(e2)
  {
    var e1 := ZeroError.(title := "a", detail := "b: c");
    var e2 := ZeroError.(title := "a: b", detail := "c");
    assert Message(e1) == "a: b: c";
    assert Message(e2) == "a: b: c";
  }
}
