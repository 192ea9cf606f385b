/** How `RequestDispatcher` sends a response through the buffered writer. */
module Dispatcher {
  import opened Http
  import opened Grammar
  import opened Printer
  import opened Writer

  datatype Response = Response(
    statusCode: int,
    contentLength: int,
    contentType: string,
    headers: map<string, string>,
    body: string)

  const NO_CONTENT := 204

  function StatusCodeToDescription(statusCode: int): string {
    if statusCode == 200 then "OK"
    else if statusCode == NO_CONTENT then "No Content"
    else if statusCode == 400 then "Bad Request"
    else if statusCode == 404 then "Not Found"
    else if statusCode == 405 then "Method Not Allowed"
    else if statusCode == 500 then "Internal Server Error"
    else "Unknown"
  }

  /** `std::to_string`. */
  function IntText(n: int): string {
    if n < 0 then "-" + Decimal(-n) else Decimal(n)
  }

  /** `static_cast<int>` of a size. */
  function ToInt(n: nat): int {
    (n + 0x8000_0000) % 0x1_0000_0000 - 0x8000_0000
  }

  function StatusLine(r: Response): string {
    "HTTP/1.1" + " " + IntText(r.statusCode) + " " + StatusCodeToDescription(r.statusCode) + "\r\n"
  }

  function FixedHeaders(r: Response): seq<Header> {
    [Header("Content-Type", r.contentType)]
    + if r.statusCode != NO_CONTENT then [Header("Content-Length", IntText(ToInt(|r.body|)))] else []
  }

  /** The response as text: what the client should receive. */
  function ResponseText(r: Response, order: seq<string>): string
    requires IsOrder(order, r.headers.Keys)
  {
    StatusLine(r) + HeaderLines(FixedHeaders(r) + MapHeaders(r.headers, order)) + "\r\n"
    + if r.statusCode != NO_CONTENT then r.body else ""
  }

  /** The writer has been given `all`, starting on a sink that had received `start`. As long as
      that fits the buffer nothing is sent and nothing is lost; after that, something is lost. */
  ghost predicate Given(w: BufferedStreamWriter, start: string, answers: seq<int>, all: string)
    requires w.Valid()
    reads w, w.sink, w.buffer
  {
    if |all| <= BUFFER_SIZE then
      w.sink.delivered == start && w.sink.answers == answers && w.Buffered() == all
    else
      |w.Accepted()| < |start| + |all|
  }

  /** A call of `writer.Write`, whose result the dispatcher ignores. */
  method Put(w: BufferedStreamWriter, chunk: string, ghost start: string, ghost answers: seq<int>, ghost all: string)
    requires w.Valid() && Given(w, start, answers, all)
    modifies w`tail, w.buffer, w.sink
    ensures w.Valid() && Given(w, start, answers, all + chunk)
  {
    ghost var before := |w.Accepted()|;
    var n := w.Write(chunk);
    assert |w.Accepted()| == before + n;
  }

  /** `Write(key); Write(COLON); Write(value); Write(NEW_LINE)`. */
  method PutHeader(w: BufferedStreamWriter, h: Header, ghost start: string, ghost answers: seq<int>, ghost all: string)
    requires w.Valid() && Given(w, start, answers, all)
    modifies w`tail, w.buffer, w.sink
    ensures w.Valid() && Given(w, start, answers, all + HeaderLine(h))
  {
    Put(w, h.key, start, answers, all);
    Put(w, ": ", start, answers, all + h.key);
    Put(w, h.value, start, answers, all + h.key + ": ");
    Put(w, "\r\n", start, answers, all + h.key + ": " + h.value);
    GroupLine(all, h.key, h.value);
  }

  lemma GroupLine(all: string, key: string, value: string)
    ensures all + key + ": " + value + "\r\n" == all + (key + ": " + value + "\r\n")
  {
  }

  /** The start line. */
  method PutStatus(w: BufferedStreamWriter, r: Response, ghost start: string, ghost answers: seq<int>)
    requires w.Valid() && Given(w, start, answers, "")
    modifies w`tail, w.buffer, w.sink
    ensures w.Valid() && Given(w, start, answers, StatusLine(r))
  {
    var code, description := IntText(r.statusCode), StatusCodeToDescription(r.statusCode);
    Put(w, "HTTP/1.1", start, answers, "");
    Put(w, " ", start, answers, "HTTP/1.1");
    Put(w, code, start, answers, "HTTP/1.1" + " ");
    Put(w, " ", start, answers, "HTTP/1.1" + " " + code);
    Put(w, description, start, answers, "HTTP/1.1" + " " + code + " ");
    Put(w, "\r\n", start, answers, "HTTP/1.1" + " " + code + " " + description);
  }

  /** The headers that do not come from the map. */
  method PutFixed(w: BufferedStreamWriter, r: Response, ghost start: string, ghost answers: seq<int>, ghost all: string)
    requires w.Valid() && Given(w, start, answers, all) && r.contentLength == ToInt(|r.body|)
    modifies w`tail, w.buffer, w.sink
    ensures w.Valid() && Given(w, start, answers, all + HeaderLines(FixedHeaders(r)))
  {
    var t, l := Header("Content-Type", r.contentType), Header("Content-Length", IntText(r.contentLength));
    PutHeader(w, t, start, answers, all);
    OptionalLine(t, true);
    OptionalLine(l, r.statusCode != NO_CONTENT);
    HeaderLinesConcat([t], if r.statusCode != NO_CONTENT then [l] else []);
    GroupThree(all, HeaderLine(t), HeaderLine(l));
    if r.statusCode != NO_CONTENT {
      PutHeader(w, l, start, answers, all + HeaderLine(t));
    }
  }

  lemma GroupThree(a: string, b: string, c: string)
    ensures a + b + c == a + (b + c) && a + b == a + (b + "")
  {
  }

  /** The loop over the header map. */
  method PutMap(w: BufferedStreamWriter, headers: map<string, string>, order: seq<string>,
                ghost start: string, ghost answers: seq<int>, ghost all: string)
    requires w.Valid() && Given(w, start, answers, all) && IsOrder(order, headers.Keys)
    modifies w`tail, w.buffer, w.sink
    ensures w.Valid() && Given(w, start, answers, all + HeaderLines(MapHeaders(headers, order)))
  {
    Empty(all);
    var i := 0;
    while i < |order|
      invariant 0 <= i <= |order| && w.Valid()
      invariant Given(w, start, answers, all + HeaderLines(MapHeaders(headers, order[..i])))
    {
      var key := order[i];
      PutHeader(w, Header(key, headers[key]), start, answers, all + HeaderLines(MapHeaders(headers, order[..i])));
      i := i + 1;
      NextLine(all, headers, order, i);
    }
    assert order[..i] == order;
  }

  /** `_WriteResponse`, with the flush of the writer's destructor. The response is delivered
      whole and in order exactly when its text fits the writer's buffer and the stream takes
      it; results of the writer are ignored and nothing is sent again. */
  method WriteResponse(response: Response, order: seq<string>, sink: Sink) returns (r: Response)
    requires IsOrder(order, response.headers.Keys)
    modifies sink
    ensures r == response.(contentLength := ToInt(|response.body|))
    ensures sink.delivered == old(sink.delivered) + ResponseText(response, order) <==>
            |ResponseText(response, order)| <= 1024 && old(sink.Succeeds())
    ensures |ResponseText(response, order)| <= 1024 && !old(sink.Succeeds()) ==>
              sink.delivered == old(sink.delivered)
  {
    var w := new BufferedStreamWriter(sink);
    ghost var start, answers := sink.delivered, sink.answers;
    r := response.(contentLength := ToInt(|response.body|));
    PutStatus(w, r, start, answers);
    ghost var all := StatusLine(r);
    PutFixed(w, r, start, answers, all);
    all := all + HeaderLines(FixedHeaders(r));
    PutMap(w, r.headers, order, start, answers, all);
    all := all + HeaderLines(MapHeaders(r.headers, order));
    Put(w, "\r\n", start, answers, all);
    all := all + "\r\n";
    if r.statusCode != NO_CONTENT {
      Put(w, r.body, start, answers, all);
      all := all + r.body;
    }
    GroupText(response, order);
    assert all == ResponseText(response, order);
    Destroy(w, start, answers, all);
  }

  lemma GroupText(r: Response, order: seq<string>)
    requires IsOrder(order, r.headers.Keys)
    ensures ResponseText(r, order)
         == (StatusLine(r) + HeaderLines(FixedHeaders(r)) + HeaderLines(MapHeaders(r.headers, order)) + "\r\n")
            + if r.statusCode != NO_CONTENT then r.body else ""
  {
    HeaderLinesConcat(FixedHeaders(r), MapHeaders(r.headers, order));
    GroupThree(StatusLine(r), HeaderLines(FixedHeaders(r)), HeaderLines(MapHeaders(r.headers, order)));
  }

  /** The destructor of the writer. */
  method Destroy(w: BufferedStreamWriter, ghost start: string, ghost answers: seq<int>, ghost all: string)
    requires w.Valid() && Given(w, start, answers, all) && all != ""
    modifies w`tail, w.sink
    ensures w.sink.delivered == start + all <==>
            |all| <= BUFFER_SIZE && (answers == [] || answers[0] >= 0)
    ensures |all| <= BUFFER_SIZE && !(answers == [] || answers[0] >= 0) ==> w.sink.delivered == start
  {
    var r := w.Flush();
    assert |all| > BUFFER_SIZE ==> |w.Accepted()| < |start + all|;
  }
}
