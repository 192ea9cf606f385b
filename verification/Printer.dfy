/** `HttpRequest::ToString`, and the round trip through the push-driven parser. */
module Printer {
  import opened Http
  import opened AsyncParser
  import opened Grammar

  /** An iteration order of an `unordered_map`: every key once. */
  predicate IsOrder(order: seq<string>, keys: set<string>) {
    && (forall i | 0 <= i < |order| :: order[i] in keys)
    && (forall k | k in keys :: k in order)
    && (forall i, j | 0 <= i < j < |order| :: order[i] != order[j])
  }

  function MapHeaders(headers: map<string, string>, order: seq<string>): seq<Header>
    requires forall i | 0 <= i < |order| :: order[i] in headers
  {
    if order == [] then []
    else
      var last := order[|order| - 1];
      assert last in headers;
      MapHeaders(headers, order[..|order| - 1]) + [Header(last, headers[last])]
  }

  function TypeHeaders(r: Request): seq<Header> {
    if r.contentType != "" then [Header("Content-Type", r.contentType)] else []
  }

  function LengthHeaders(r: Request): seq<Header> {
    if r.contentLength > 0 then [Header("Content-Length", Decimal(r.contentLength))] else []
  }

  function HostHeaders(r: Request): seq<Header> {
    if r.host != "" then [Header("Host", r.host)] else []
  }

  function FieldHeaders(r: Request): seq<Header> {
    TypeHeaders(r) + LengthHeaders(r) + HostHeaders(r)
  }

  /** The message that printing a request produces. */
  function MessageOf(r: Request, order: seq<string>): Message
    requires IsOrder(order, r.headers.Keys)
  {
    Message(r.verb, r.path, FieldHeaders(r) + MapHeaders(r.headers, order), "",
            if r.contentLength > 0 then r.body else "")
  }

  lemma {:induction false} HeaderLinesConcat(a: seq<Header>, b: seq<Header>)
    ensures HeaderLines(a + b) == HeaderLines(a) + HeaderLines(b)
  {
    if b == [] {
      assert a + b == a;
    } else {
      var front, last := b[..|b| - 1], b[|b| - 1];
      assert (a + b)[..|a + b| - 1] == a + front && (a + b)[|a + b| - 1] == last;
      HeaderLinesConcat(a, front);
      Associate(HeaderLines(a), HeaderLines(front), HeaderLine(last));
    }
  }

  lemma Associate(a: string, b: string, c: string)
    ensures (a + b) + c == a + (b + c)
  {
  }

  /** A header that is printed only if `present`. */
  lemma OptionalLine(h: Header, present: bool)
    ensures HeaderLines(if present then [h] else []) == if present then HeaderLine(h) else ""
  {
    assert [h][..0] == [];
    assert HeaderLines([h]) == "" + HeaderLine(h);
  }

  /** The text of the printed message, piece by piece. */
  lemma PrintedText(r: Request, order: seq<string>)
    requires IsOrder(order, r.headers.Keys)
    ensures Render(MessageOf(r, order))
         == (RequestLine(r.verb, r.path) + HeaderLines(TypeHeaders(r)) + HeaderLines(LengthHeaders(r))
             + HeaderLines(HostHeaders(r)) + HeaderLines(MapHeaders(r.headers, order)) + "\r\n")
            + if r.contentLength > 0 then r.body else ""
  {
    var t, l, h := TypeHeaders(r), LengthHeaders(r), HostHeaders(r);
    var m := MapHeaders(r.headers, order);
    HeaderLinesConcat(t, l);
    HeaderLinesConcat(t + l, h);
    HeaderLinesConcat(t + l + h, m);
    Regroup5(RequestLine(r.verb, r.path), HeaderLines(t), HeaderLines(l), HeaderLines(h), HeaderLines(m));
  }

  lemma Regroup5(line: string, t: string, l: string, h: string, m: string)
    ensures line + (((t + l) + h) + m) + "" == line + t + l + h + m
  {
  }

  function LineIf(present: bool, key: string, value: string): string {
    if present then key + ": " + value + "\r\n" else ""
  }

  /** What is printed, in full. */
  lemma PrintedInFull(r: Request, order: seq<string>)
    requires IsOrder(order, r.headers.Keys)
    ensures Render(MessageOf(r, order))
         == MethodToString(r.verb) + " " + r.path + " " + "HTTP/1.1" + "\r\n"
            + LineIf(r.contentType != "", "Content-Type", r.contentType)
            + LineIf(r.contentLength > 0, "Content-Length",
                     if r.contentLength > 0 then Decimal(r.contentLength) else "")
            + LineIf(r.host != "", "Host", r.host)
            + HeaderLines(MapHeaders(r.headers, order)) + "\r\n"
            + if r.contentLength > 0 then r.body else ""
  {
    PrintedText(r, order);
    OptionalLine(Header("Content-Type", r.contentType), r.contentType != "");
    if r.contentLength > 0 { OptionalLine(Header("Content-Length", Decimal(r.contentLength)), true); }
    OptionalLine(Header("Host", r.host), r.host != "");
  }

  /** `ss << key << ": " << value << "\r\n"`. */
  method AppendHeader(s: string, key: string, value: string) returns (s': string)
    ensures s' == s + HeaderLine(Header(key, value))
  {
    s' := s + key;
    s' := s' + ": ";
    s' := s' + value;
    s' := s' + "\r\n";
  }

  /** A special header, printed only if it is set. */
  method AppendIf(s: string, present: bool, h: Header) returns (s': string)
    ensures s' == s + HeaderLines(if present then [h] else [])
  {
    OptionalLine(h, present);
    Empty(s);
    s' := s;
    if present {
      s' := AppendHeader(s', h.key, h.value);
    }
  }

  /** The three special headers. */
  method AppendFields(s: string, r: Request) returns (s': string)
    ensures s' == s + HeaderLines(TypeHeaders(r)) + HeaderLines(LengthHeaders(r)) + HeaderLines(HostHeaders(r))
  {
    s' := AppendIf(s, r.contentType != "", Header("Content-Type", r.contentType));
    var length := if r.contentLength > 0 then Decimal(r.contentLength) else "";
    s' := AppendIf(s', r.contentLength > 0, Header("Content-Length", length));
    s' := AppendIf(s', r.host != "", Header("Host", r.host));
  }

  /** The loop over the header map. */
  method AppendMap(s: string, headers: map<string, string>, order: seq<string>) returns (s': string)
    requires IsOrder(order, headers.Keys)
    ensures s' == s + HeaderLines(MapHeaders(headers, order))
  {
    s' := s;
    var i := 0;
    while i < |order|
      invariant 0 <= i <= |order|
      invariant s' == s + HeaderLines(MapHeaders(headers, order[..i]))
    {
      var key := order[i];
      s' := AppendHeader(s', key, headers[key]);
      i := i + 1;
      NextLine(s, headers, order, i);
    }
    assert order[..i] == order;
  }

  lemma NextLine(s: string, headers: map<string, string>, order: seq<string>, i: nat)
    requires IsOrder(order, headers.Keys) && 0 < i <= |order|
    ensures s + HeaderLines(MapHeaders(headers, order[..i]))
         == (s + HeaderLines(MapHeaders(headers, order[..i - 1])))
            + HeaderLine(Header(order[i - 1], headers[order[i - 1]]))
  {
    var last := Header(order[i - 1], headers[order[i - 1]]);
    assert order[..i][..i - 1] == order[..i - 1];
    var hs := MapHeaders(headers, order[..i - 1]) + [last];
    assert hs[..|hs| - 1] == MapHeaders(headers, order[..i - 1]);
  }

  /** `ToString`: the pieces in the order of the source give the text of the message. */
  method ToString(r: Request, order: seq<string>) returns (s: string)
    requires IsOrder(order, r.headers.Keys)
    ensures s == Render(MessageOf(r, order))
  {
    s := MethodToString(r.verb) + " ";
    s := s + r.path;
    s := s + " ";
    s := s + VERSION_TEXT;
    s := s + "\r\n";
    assert s == RequestLine(r.verb, r.path);
    s := AppendFields(s, r);
    s := AppendMap(s, r.headers, order);
    s := s + "\r\n";
    PrintedText(r, order);
    if r.contentLength > 0 {
      s := s + r.body;
    }
  }

  // ---------------------------------------------------------------------
  // Round trip
  // ---------------------------------------------------------------------

  predicate IsSpecial(key: string) {
    key == "Content-Length" || key == "Content-Type" || key == "Host"
  }

  /** A request a client could have sent in this form: valid method, path and texts, no special
      header in the map, and a body of the stated, non-negative length. */
  predicate Printable(r: Request) {
    && r.verb != INVALID && r.version == HTTP_1_1 && PathOk(r.path)
    && (r.contentType != "" ==> ValueOk(r.contentType))
    && (r.host != "" ==> ValueOk(r.host))
    && (forall k | k in r.headers :: KeyOk(k) && !IsSpecial(k) && ValueOk(r.headers[k]))
    && r.contentLength == |r.body| <= INT_MAX
  }

  /** A request object before parsing. The callers have put the client's address in `Host`. */
  predicate Blank(r: Request) {
    r.contentType == "" && r.headers == map[] && r.body == ""
  }

  /** A host that is not printed stays what it was in the object that is read into. */
  function HostAfter(q: Request, r: Request): string {
    if r.host != "" then r.host else q.host
  }

  lemma {:induction false} StoreConcat(r: Request, a: seq<Header>, b: seq<Header>)
    requires HeadersOk(a + b)
    ensures HeadersOk(a) && HeadersOk(b)
    ensures StoreHeaders(r, a + b) == StoreHeaders(StoreHeaders(r, a), b)
  {
    assert forall i | 0 <= i < |a| :: a[i] == (a + b)[i];
    assert forall i | 0 <= i < |b| :: b[i] == (a + b)[|a| + i];
    if b == [] {
      assert a + b == a;
    } else {
      var front := b[..|b| - 1];
      assert (a + b)[..|a + b| - 1] == a + front;
      StoreConcat(r, a, front);
    }
  }

  lemma {:induction false} MapHeadersOk(headers: map<string, string>, order: seq<string>)
    requires forall i | 0 <= i < |order| :: order[i] in headers
    requires forall k | k in headers :: KeyOk(k) && !IsSpecial(k) && ValueOk(headers[k])
    ensures HeadersOk(MapHeaders(headers, order))
    ensures |MapHeaders(headers, order)| == |order|
    ensures forall i | 0 <= i < |order| :: MapHeaders(headers, order)[i] == Header(order[i], headers[order[i]])
  {
    if order != [] {
      MapHeadersOk(headers, order[..|order| - 1]);
    }
  }

  /** Reading back the printed map. */
  lemma {:induction false} StoreMap(r: Request, headers: map<string, string>, order: seq<string>)
    requires forall i | 0 <= i < |order| :: order[i] in headers
    requires forall k | k in headers :: KeyOk(k) && !IsSpecial(k) && ValueOk(headers[k])
    ensures HeadersOk(MapHeaders(headers, order))
    ensures StoreHeaders(r, MapHeaders(headers, order))
         == r.(headers := r.headers + map k | k in order :: headers[k])
  {
    MapHeadersOk(headers, order);
    if order == [] {
      assert r.headers + map[] == r.headers;
    } else {
      var front, last := order[..|order| - 1], order[|order| - 1];
      var hs := MapHeaders(headers, order);
      MapHeadersOk(headers, front);
      StoreMap(r, headers, front);
      assert hs[..|hs| - 1] == MapHeaders(headers, front);
      ExtendMap(r.headers, headers, order);
      StoreOrdinary(r.(headers := r.headers + map k | k in front :: headers[k]), last, headers[last]);
    }
  }

  lemma ExtendMap(base: map<string, string>, headers: map<string, string>, order: seq<string>)
    requires order != [] && forall i | 0 <= i < |order| :: order[i] in headers
    ensures var front, last := order[..|order| - 1], order[|order| - 1];
            (base + map k | k in front :: headers[k])[last := headers[last]] == base + map k | k in order :: headers[k]
  {
    var front, last := order[..|order| - 1], order[|order| - 1];
    assert order == front + [last];
  }

  lemma StoreOrdinary(r: Request, key: string, value: string)
    requires !IsSpecial(key)
    ensures StoreHeader(r, key, value) == Some(r.(headers := r.headers[key := value]))
  {
  }

  lemma StoreOne(r: Request, h: Header)
    requires HeaderOk(h)
    ensures HeadersOk([h]) && StoreHeaders(r, [h]) == StoreHeader(r, h.key, h.value).value
  {
    assert [h][..0] == [];
  }

  lemma SpecialHeaders()
    ensures KeyOk("Content-Type") && KeyOk("Content-Length") && KeyOk("Host")
    ensures "Content-Type" != "Content-Length" && "Host" != "Content-Type" && "Host" != "Content-Length"
  {
    assert |"Content-Type"| == 12 && |"Content-Length"| == 14 && |"Host"| == 4;
  }

  lemma DecimalIsValue(n: nat)
    requires n <= INT_MAX
    ensures ValueOk(Decimal(n)) && Stoi(Decimal(n)) == Some(n)
  {
    StoiOfDecimal(n);
    var d := Decimal(n);
    forall i | 0 <= i < |d| ensures IsHeaderValueChar(d[i]) { assert IsDigit(d[i]); }
  }

  lemma StoreType(q: Request, r: Request)
    requires Printable(r)
    ensures HeadersOk(TypeHeaders(r))
    ensures StoreHeaders(q, TypeHeaders(r)) == if r.contentType != "" then q.(contentType := r.contentType) else q
  {
    SpecialHeaders();
    if r.contentType != "" { StoreOne(q, Header("Content-Type", r.contentType)); }
  }

  lemma StoreLength(q: Request, r: Request)
    requires Printable(r)
    ensures HeadersOk(LengthHeaders(r))
    ensures StoreHeaders(q, LengthHeaders(r)) == if r.contentLength > 0 then q.(contentLength := r.contentLength) else q
  {
    SpecialHeaders();
    if r.contentLength > 0 {
      DecimalIsValue(r.contentLength);
      StoreOne(q, Header("Content-Length", Decimal(r.contentLength)));
    }
  }

  lemma StoreHost(q: Request, r: Request)
    requires Printable(r)
    ensures HeadersOk(HostHeaders(r))
    ensures StoreHeaders(q, HostHeaders(r)) == if r.host != "" then q.(host := r.host) else q
  {
    SpecialHeaders();
    if r.host != "" { StoreOne(q, Header("Host", r.host)); }
  }

  /** Reading back the special headers. */
  lemma StoreFields(q: Request, r: Request)
    requires Printable(r) && Blank(q) && q.contentLength == 0
    ensures HeadersOk(FieldHeaders(r))
    ensures StoreHeaders(q, FieldHeaders(r))
         == q.(contentType := r.contentType, contentLength := r.contentLength, host := HostAfter(q, r))
  {
    var t, l, h := TypeHeaders(r), LengthHeaders(r), HostHeaders(r);
    StoreType(q, r);
    var q1 := q.(contentType := r.contentType);
    StoreLength(q1, r);
    StoreHost(q1.(contentLength := r.contentLength), r);
    JoinOk(t, l);
    JoinOk(t + l, h);
    StoreConcat(q, t, l);
    StoreConcat(q, t + l, h);
  }

  lemma JoinOk(a: seq<Header>, b: seq<Header>)
    requires HeadersOk(a) && HeadersOk(b)
    ensures HeadersOk(a + b)
  {
  }

  lemma WholeMap(headers: map<string, string>, order: seq<string>)
    requires IsOrder(order, headers.Keys)
    ensures map[] + (map k | k in order :: headers[k]) == headers
  {
  }

  /** The headers of the map are printable ones, in any order. */
  lemma StoreOrder(q: Request, r: Request, order: seq<string>)
    requires Printable(r) && IsOrder(order, r.headers.Keys) && q.headers == map[]
    ensures HeadersOk(MapHeaders(r.headers, order))
    ensures StoreHeaders(q, MapHeaders(r.headers, order)) == q.(headers := r.headers)
  {
    StoreMap(q, r.headers, order);
    WholeMap(r.headers, order);
  }

  /** Reading back all printed headers. */
  lemma StorePrinted(q: Request, r: Request, order: seq<string>)
    requires Printable(r) && IsOrder(order, r.headers.Keys) && Blank(q) && q.contentLength == 0
    ensures HeadersOk(MessageOf(r, order).headers)
    ensures StoreHeaders(q, MessageOf(r, order).headers)
         == q.(contentType := r.contentType, contentLength := r.contentLength, host := HostAfter(q, r),
               headers := r.headers)
  {
    var q' := q.(contentType := r.contentType, contentLength := r.contentLength, host := HostAfter(q, r));
    StoreFields(q, r);
    StoreOrder(q', r, order);
    JoinOk(FieldHeaders(r), MapHeaders(r.headers, order));
    StoreConcat(q, FieldHeaders(r), MapHeaders(r.headers, order));
  }

  lemma PrintedIsWellFormed(q: Request, r: Request, order: seq<string>)
    requires Printable(r) && IsOrder(order, r.headers.Keys) && Blank(q)
    ensures WellFormed(MessageOf(r, order))
    ensures Meaning(q, MessageOf(r, order)) == r.(host := HostAfter(q, r))
  {
    var m := MessageOf(r, order);
    var q' := WithLine(q, r.verb, r.path);
    StorePrinted(q', r, order);
    StoredLength(q', m.headers);
    assert m.body == r.body;
  }

  /** Feeding what `ToString` prints to a parser on a blank request answers 0, .., 0, 1 and
      rebuilds the request. */
  predicate RoundTrips(q: Request, e: int, r: Request, order: seq<string>)
    requires IsOrder(order, r.headers.Keys)
  {
    var s := Render(MessageOf(r, order));
    AcceptsExactly(NewParser(q, e), s) && FeedAll(NewParser(q, e), s).0.request == r
  }

  // ---------------------------------------------------------------------
  // What comes out of the parser
  // ---------------------------------------------------------------------

  /** What every sequence of stored headers leaves in a request whose host was `host`. */
  predicate FieldsOk(r: Request, host: string) {
    && (r.contentType != "" ==> ValueOk(r.contentType))
    && (r.host == host || ValueOk(r.host))
    && (forall k | k in r.headers :: KeyOk(k) && !IsSpecial(k) && ValueOk(r.headers[k]))
  }

  lemma StoreKeepsFields(r: Request, host: string, h: Header)
    requires FieldsOk(r, host) && HeaderOk(h)
    ensures var s := StoreHeader(r, h.key, h.value); s.Some? && FieldsOk(s.value, host)
  {
  }

  lemma {:induction false} StoredFields(r: Request, host: string, hs: seq<Header>)
    requires FieldsOk(r, host) && HeadersOk(hs)
    ensures FieldsOk(StoreHeaders(r, hs), host)
    ensures StoreHeaders(r, hs).verb == r.verb && StoreHeaders(r, hs).version == r.version
    ensures StoreHeaders(r, hs).path == r.path
  {
    if hs != [] {
      StoredFields(r, host, hs[..|hs| - 1]);
      var q := StoreHeaders(r, hs[..|hs| - 1]);
      StoreKeepsFields(q, host, hs[|hs| - 1]);
    }
  }

  /** Printable but for the host and the sign of the length. */
  predicate AlmostPrintable(r: Request) {
    && r.verb != INVALID && r.version == HTTP_1_1 && PathOk(r.path)
    && (r.contentType != "" ==> ValueOk(r.contentType))
    && (forall k | k in r.headers :: KeyOk(k) && !IsSpecial(k) && ValueOk(r.headers[k]))
    && INT_MIN <= r.contentLength <= INT_MAX && |r.body| == ToSize(r.contentLength)
  }

  lemma ParsedIsAlmostPrintable(q: Request, e: int, s: string)
    requires Blank(q) && AcceptsExactly(NewParser(q, e), s)
    ensures var r := FeedAll(NewParser(q, e), s).0.request;
            AlmostPrintable(r) && (r.host == q.host || ValueOk(r.host))
  {
    ExactLanguage(q, e, s);
    var m :| WellFormed(m) && Render(m) == s;
    AcceptedMeaning(q, e, m);
    var q' := WithLine(q, m.verb, m.path);
    StoredFields(q', q.host, m.headers);
    StoredLength(q', m.headers);
  }

  /** Whatever the parser accepts is printable, exactly if its Content-Length is not negative and
      its host is a header's or could be one. */
  lemma {:induction false} ParsedIsPrintable(q: Request, e: int, s: string)
    requires Blank(q) && AcceptsExactly(NewParser(q, e), s)
    ensures var r := FeedAll(NewParser(q, e), s).0.request;
            && (r.host == q.host || ValueOk(r.host))
            && (Printable(r) <==> r.contentLength >= 0 && (r.host == "" || ValueOk(r.host)))
  {
    ParsedIsAlmostPrintable(q, e, s);
  }

  // ---------------------------------------------------------------------
  // A printed host is read
  // ---------------------------------------------------------------------

  /** The parser has stored a host, or is about to. */
  predicate HostComes(p: Parser) {
    && (p.handler == Colon || p.handler == Space3 ==> p.token == "")
    && (p.handler == HeaderValue ==> ValueOk(p.token))
    && (ValueOk(p.request.host) || (p.key == "Host" && (p.handler == Space3 || p.handler == HeaderValue)))
  }

  lemma HostStored(p: Parser, ch: char)
    requires HostComes(p) && p.handler == HeaderValue
    ensures Consume(p, ch).1.Progress? ==> HostComes(Consume(p, ch).0)
    ensures !Consume(p, ch).1.Accepted?
  {
    var (q, o) := ConsumeHeaderValue(p, ch);
    assert Consume(p, ch) == (q, o);
  }

  lemma HostComesNext(p: Parser, ch: char)
    requires HostComes(p)
    ensures Consume(p, ch).1.Progress? ==> HostComes(Consume(p, ch).0)
    ensures Consume(p, ch).1.Accepted? ==> ValueOk(Consume(p, ch).0.request.host)
  {
    match p.handler
    case Method => assert Consume(p, ch) == ConsumeMethod(p, ch);
    case HeaderKey => assert Consume(p, ch) == ConsumeHeaderKey(p, ch);
    case HeaderValue => HostStored(p, ch);
    case EndLine => assert Consume(p, ch) == ConsumeEndLine(p, ch);
    case Body => assert Consume(p, ch) == ConsumeBody(p, ch);
    case _ =>
  }

  lemma {:induction false} HostIsRead(p: Parser, a: string, b: string)
    requires FeedAll(p, a).1.Progress? && HostComes(FeedAll(p, a).0)
    ensures FeedAll(p, a + b).1.Progress? ==> HostComes(FeedAll(p, a + b).0)
    ensures b != "" && FeedAll(p, a + b).1.Accepted? && FeedAll(p, (a + b)[..|a + b| - 1]).1.Progress? ==>
              ValueOk(FeedAll(p, a + b).0.request.host)
  {
    if b == "" {
      assert a + b == a;
    } else {
      var front := b[..|b| - 1];
      assert (a + b)[..|a + b| - 1] == a + front && (a + b)[|a + b| - 1] == b[|b| - 1];
      HostIsRead(p, a, front);
      if FeedAll(p, a + front).1.Progress? {
        HostComesNext(FeedAll(p, a + front).0, b[|b| - 1]);
      }
    }
  }

  lemma AcceptedHost(p: Parser, a: string, b: string, s: string)
    requires FeedAll(p, a).1.Progress? && HostComes(FeedAll(p, a).0)
    requires s == a + b && b != "" && AcceptsExactly(p, s)
    ensures ValueOk(FeedAll(p, s).0.request.host)
  {
    HostIsRead(p, a, b);
  }

  /** The text up to the value of the host. */
  function UpToHost(r: Request): Partial {
    AfterSpace(Head(r.verb, r.path, TypeHeaders(r) + LengthHeaders(r)), "Host")
  }

  lemma UpToHostIsValid(r: Request)
    requires AlmostPrintable(r)
    ensures Valid(UpToHost(r))
  {
    SpecialHeaders();
    if r.contentLength > 0 { DecimalIsValue(r.contentLength); }
    JoinOk(TypeHeaders(r), LengthHeaders(r));
  }

  lemma HostFollows(r: Request, order: seq<string>) returns (rest: string)
    requires AlmostPrintable(r) && IsOrder(order, r.headers.Keys) && r.host != ""
    ensures Valid(UpToHost(r)) && Render(MessageOf(r, order)) == Text(UpToHost(r)) + rest && rest != ""
  {
    UpToHostIsValid(r);
    var a, h, m := TypeHeaders(r) + LengthHeaders(r), HostHeaders(r), MapHeaders(r.headers, order);
    var body := if r.contentLength > 0 then r.body else "";
    HeaderLinesConcat(a, h);
    HeaderLinesConcat(a + h, m);
    OptionalLine(Header("Host", r.host), true);
    rest := r.host + "\r\n" + HeaderLines(m) + "\r\n" + body;
    SplitHost(RequestLine(r.verb, r.path), HeaderLines(a), r.host, HeaderLines(m), body);
  }

  lemma SplitHost(line: string, a: string, host: string, m: string, body: string)
    ensures line + ((a + ("Host" + ": " + host + "\r\n")) + m) + "" + "\r\n" + body
         == (line + a + "Host" + ": ") + (host + "\r\n" + m + "\r\n" + body)
  {
  }

  lemma PrintedHostIsRead(q: Request, e: int, r: Request, order: seq<string>)
    requires Blank(q) && IsOrder(order, r.headers.Keys) && AlmostPrintable(r) && r.host != ""
    requires RoundTrips(q, e, r, order)
    ensures ValueOk(r.host)
  {
    var rest := HostFollows(r, order);
    UpToHostIsRead(q, e, r);
    AcceptedHost(NewParser(q, e), Text(UpToHost(r)), rest, Render(MessageOf(r, order)));
  }

  lemma UpToHostIsRead(q: Request, e: int, r: Request)
    requires Blank(q) && AlmostPrintable(r)
    ensures Valid(UpToHost(r))
    ensures var (p, o) := FeedAll(NewParser(q, e), Text(UpToHost(r))); o.Progress? && HostComes(p)
  {
    UpToHostIsValid(r);
    ReadsPartial(q, e, UpToHost(r));
  }

  // ---------------------------------------------------------------------
  // Exactly when
  // ---------------------------------------------------------------------

  /** What a request must be to survive; a host that is not printed must not have been preset. */
  lemma RoundTripFields(q: Request, e: int, r: Request, order: seq<string>)
    requires Blank(q) && IsOrder(order, r.headers.Keys) && RoundTrips(q, e, r, order)
    ensures AlmostPrintable(r) && HostAfter(q, r) == r.host && (r.host == "" || ValueOk(r.host))
  {
    ParsedIsAlmostPrintable(q, e, Render(MessageOf(r, order)));
    if r.host != "" { PrintedHostIsRead(q, e, r, order); }
  }

  /** Without a Content-Length header the parsed length is 0, so a negative one cannot be
      rebuilt from its print, which leaves it out. */
  lemma NegativeLengthIsLost(q: Request, e: int, r: Request, order: seq<string>)
    requires Blank(q) && IsOrder(order, r.headers.Keys) && RoundTrips(q, e, r, order)
    ensures r.contentLength >= 0
  {
    RoundTripFields(q, e, r, order);
    if r.contentLength < 0 {
      var r0 := r.(contentLength := 0, body := "");
      assert Printable(r0);
      assert MessageOf(r0, order) == MessageOf(r, order);
      PrintedIsWellFormed(q, r0, order);
      AcceptedMeaning(q, e, MessageOf(r0, order));
    }
  }

  /** Print then parse is the identity, for every order of the headers and every preset host, on
      exactly the printable requests that have a host if one was preset. */
  lemma RoundTrip(q: Request, e: int, r: Request, order: seq<string>)
    requires Blank(q) && IsOrder(order, r.headers.Keys)
    ensures RoundTrips(q, e, r, order) <==> Printable(r) && (r.host == "" ==> q.host == "")
  {
    if Printable(r) {
      PrintedIsWellFormed(q, r, order);
      AcceptedMeaning(q, e, MessageOf(r, order));
    }
    if RoundTrips(q, e, r, order) {
      RoundTripFields(q, e, r, order);
      NegativeLengthIsLost(q, e, r, order);
    }
  }

  /** Otherwise a printable request comes back with the preset host, and with nothing else changed. */
  lemma {:induction false} PresetHostReturns(q: Request, e: int, r: Request, order: seq<string>)
    requires Blank(q) && IsOrder(order, r.headers.Keys) && Printable(r)
    ensures var s := Render(MessageOf(r, order));
            AcceptsExactly(NewParser(q, e), s) &&
            FeedAll(NewParser(q, e), s).0.request == r.(host := if r.host == "" then q.host else r.host)
  {
    PrintedIsWellFormed(q, r, order);
    AcceptedMeaning(q, e, MessageOf(r, order));
  }
}
