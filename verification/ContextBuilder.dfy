/** `AsyncHttpContextBuilder`: the loop that feeds what the reader returns to the parser. */
module ContextBuilder {
  import opened Http
  import opened AsyncParser
  import opened Grammar
  import opened Streams

  /** What `Parse` returns: 1 when a request is complete, 0 or a negative status otherwise, or
      the exception that left `stoi`. */
  datatype BuildResult = Code(n: int) | Exception

  /** The `int` that `Feed` returns. */
  function FeedCode(o: Outcome): int {
    match o
    case Progress => 0
    case Accepted => 1
    case Rejected(code) => code
    case Threw => 0
  }

  /** The status for a character that ends the loop. */
  function StopCode(ch: int): int {
    if ch == END_OF_FILE then END_OF_FILE else if ch == ERROR then ERROR else 0
  }

  /** `Parse` as a function of the bytes to come, whatever their grouping: the parser and the
      unread bytes it leaves behind, and its result. */
  function ParseBytes(p: Parser, u: string): (Parser, string, BuildResult)
    decreases |u|
  {
    if u == "" then (p, "", Code(END_OF_FILE))
    else if Promote(u[0]) <= 0 then (p, u[1..], Code(StopCode(Promote(u[0]))))
    else
      var (q, o) := Consume(p, u[0]);
      if o.Threw? then (q, u[1..], Exception)
      else if FeedCode(o) < 0 || FeedCode(o) == 1 then (q, u[1..], Code(FeedCode(o)))
      else ParseBytes(q, u[1..])
  }

  class AsyncHttpContextBuilder {
    const reader: BufferedStreamReader
    const parser: AsyncHttpRequestParser

    ghost predicate Valid()
      reads this, reader, reader.stream
    {
      reader.Valid()
    }

    constructor (stream: Stream, request: Request, host: string, error: int)
      requires stream.Valid()
      ensures Valid() && reader.Unread() == stream.Pending()
      ensures parser.View() == NewParser(request.(host := host), error)
    {
      var p := new AsyncHttpRequestParser(request, error);
      p.request := p.request.(host := host);
      this.parser := p;
      var r := new BufferedStreamReader(stream);
      this.reader := r;
    }

    /** However the stream splits its data, `Parse` does what `ParseBytes` says of the bytes
        that are still unread. */
    method Parse() returns (r: BuildResult)
      requires Valid()
      modifies parser, reader, reader.stream, reader.buffer
      ensures Valid()
      ensures (parser.View(), reader.Unread(), r) == ParseBytes(old(parser.View()), old(reader.Unread()))
    {
      ghost var result := ParseBytes(parser.View(), reader.Unread());
      ghost var unread := reader.Unread();
      ghost var p := parser.View();
      var ch := reader.Read();
      while ch > 0
        invariant Valid() && parser.View() == p
        invariant ParseBytes(p, unread) == result
        invariant if unread == "" then ch == END_OF_FILE && reader.Unread() == ""
                  else ch == Promote(unread[0]) && reader.Unread() == unread[1..]
        decreases |unread|
      {
        var o := parser.Feed(Narrow(ch));
        if o.Threw? {
          return Exception;
        }
        if FeedCode(o) < 0 || FeedCode(o) == 1 {
          return Code(FeedCode(o));
        }
        unread := unread[1..];
        p := parser.View();
        ch := reader.Read();
      }
      return Code(StopCode(ch));
    }
  }

  // ---------------------------------------------------------------------
  // What the builder accepts
  // ---------------------------------------------------------------------

  /** Bytes that are still positive when promoted to `int`: 1 to 127. */
  predicate PlainChar(c: char) {
    0 as char < c < 128 as char
  }

  predicate Plain(s: string) {
    forall i | 0 <= i < |s| :: PlainChar(s[i])
  }

  /** Where the loop stops if the parser does not stop it. */
  function Stop(u: string): (n: nat)
    ensures n <= |u|
  {
    if u == "" || Promote(u[0]) <= 0 then 0 else 1 + Stop(u[1..])
  }

  /** What is left unread then: the byte that stops the loop is lost. */
  function AfterStop(u: string): string {
    if Stop(u) < |u| then u[Stop(u) + 1..] else ""
  }

  function EndCode(u: string): int {
    if Stop(u) < |u| then StopCode(Promote(u[Stop(u)])) else END_OF_FILE
  }

  lemma StopLater(u: string)
    requires u != "" && Promote(u[0]) > 0
    ensures Stop(u) == 1 + Stop(u[1..]) && AfterStop(u) == AfterStop(u[1..]) && EndCode(u) == EndCode(u[1..])
  {
    if Stop(u) < |u| {
      assert u[1..][Stop(u[1..])] == u[Stop(u)];
      assert u[1..][Stop(u[1..]) + 1..] == u[Stop(u) + 1..];
    }
  }

  /** One round of the loop. */
  lemma ParseOne(p: Parser, u: string)
    requires u != "" && Promote(u[0]) > 0
    ensures var (q, o) := Consume(p, u[0]);
            && (o.Accepted? ==> ParseBytes(p, u) == (q, u[1..], Code(1)))
            && (o.Threw? ==> ParseBytes(p, u) == (q, u[1..], Exception))
            && (o.Progress? ==> ParseBytes(p, u) == ParseBytes(q, u[1..]))
            && (o.Rejected? && o.code >= 10 ==> ParseBytes(p, u) == ParseBytes(q, u[1..]))
  {
  }

  lemma Regrouped(s: string, rest: string)
    requires s != ""
    ensures s + rest == s[..|s| - 1] + ([s[|s| - 1]] + rest) && ([s[|s| - 1]] + rest)[1..] == rest
  {
  }

  /** Plain bytes on which the parser makes progress are just passed on. */
  lemma {:induction false} ParsePrefix(p: Parser, s: string, rest: string)
    requires Plain(s) && FeedAll(p, s).1.Progress?
    ensures ParseBytes(p, s + rest) == ParseBytes(FeedAll(p, s).0, rest)
    decreases |s|
  {
    if s == "" {
      assert s + rest == rest;
    } else {
      var front, c := s[..|s| - 1], s[|s| - 1];
      Regrouped(s, rest);
      ParsePrefix(p, front, [c] + rest);
      assert PlainChar(c);
      ParseOne(FeedAll(p, front).0, [c] + rest);
    }
  }

  lemma ParseAccepted(p: Parser, s: string, rest: string)
    requires Plain(s) && AcceptsExactly(p, s)
    ensures ParseBytes(p, s + rest) == (FeedAll(p, s).0, rest, Code(1))
  {
    var front, c := s[..|s| - 1], s[|s| - 1];
    Regrouped(s, rest);
    ParsePrefix(p, front, [c] + rest);
    assert PlainChar(c);
    ParseOne(FeedAll(p, front).0, [c] + rest);
  }

  lemma ParseThrown(p: Parser, s: string, rest: string)
    requires Plain(s) && ThrowsExactly(p, s)
    ensures ParseBytes(p, s + rest).2 == Exception
  {
    var front, c := s[..|s| - 1], s[|s| - 1];
    Regrouped(s, rest);
    ParsePrefix(p, front, [c] + rest);
    assert PlainChar(c);
    ParseOne(FeedAll(p, front).0, [c] + rest);
  }

  /** A complete request of plain bytes is reported with its last byte, holds its meaning, and
      leaves whatever follows unread. */
  lemma BuilderReadsMessage(r: Request, e: int, m: Message, rest: string)
    requires WellFormed(m) && r.body == "" && Plain(Render(m))
    ensures var (p, u, result) := ParseBytes(NewParser(r, e), Render(m) + rest);
            result == Code(1) && u == rest && p.request == Meaning(r, m)
  {
    AcceptedMeaning(r, e, m);
    ParseAccepted(NewParser(r, e), Render(m), rest);
  }

  /** A rejecting parser swallows everything up to the first byte that stops the loop. */
  lemma {:induction false} ErrorSwallows(p: Parser, u: string)
    requires p.handler == Error && p.error >= 10
    ensures ParseBytes(p, u) == (p, AfterStop(u), Code(EndCode(u)))
    decreases |u|
  {
    if u != "" && Promote(u[0]) > 0 {
      ErrorSwallows(p, u[1..]);
      StopLater(u);
    }
  }

  lemma RejectionIsPositive(p: Parser, c: char)
    requires p.handler != Error && Consume(p, c).1.Rejected?
    ensures Consume(p, c).0.handler == Error && Consume(p, c).0.error >= 10
    ensures Consume(p, c).1.code >= 10
  {
    match p.handler
    case Method => assert ConsumeMethod(p, c).1.Rejected?;
    case HeaderValue => assert ConsumeHeaderValue(p, c).1.Rejected?;
    case Body => assert ConsumeBody(p, c).1.Rejected?;
    case _ =>
  }

  lemma ProgressIsNotError(p: Parser, c: char)
    requires Consume(p, c).1.Progress?
    ensures p.handler != Error && Consume(p, c).0.handler != Error
  {
    match p.handler
    case Method => assert ConsumeMethod(p, c).1.Progress?;
    case HeaderValue => assert ConsumeHeaderValue(p, c).1.Progress?;
    case Body => assert ConsumeBody(p, c).1.Progress?;
    case _ =>
  }

  /** How the loop ends on `u` when `s` has been fed: with the request that `n` more bytes
      complete, with an exception, or where it stops by itself. */
  ghost predicate Ends(p0: Parser, s: string, u: string, n: nat, left: string, result: BuildResult) {
    || (result == Code(1) && n <= |u| && Plain(u[..n]) && AcceptsExactly(p0, s + u[..n]))
    || (result == Exception && n <= |u| && Plain(u[..n]) && ThrowsExactly(p0, s + u[..n]))
    || (result == Code(EndCode(u)) && left == AfterStop(u))
  }

  lemma EndsLater(p0: Parser, s: string, u: string, n: nat, left: string, result: BuildResult)
    requires u != "" && PlainChar(u[0]) && Ends(p0, s + [u[0]], u[1..], n, left, result)
    ensures Ends(p0, s, u, n + 1, left, result)
  {
    StopLater(u);
    if n + 1 <= |u| {
      TakeLater(s, u, n);
    }
  }

  lemma TakeLater(s: string, u: string, n: nat)
    requires n + 1 <= |u|
    ensures (s + [u[0]]) + u[1..][..n] == s + u[..n + 1]
    ensures PlainChar(u[0]) && Plain(u[1..][..n]) ==> Plain(u[..n + 1])
  {
    assert u[..n + 1] == [u[0]] + u[1..][..n];
  }

  lemma FeedSnoc(p: Parser, s: string, c: char)
    requires FeedAll(p, s).1.Progress?
    ensures FeedAll(p, s + [c]) == Consume(FeedAll(p, s).0, c)
    ensures Consume(FeedAll(p, s).0, c).1.Accepted? ==> AcceptsExactly(p, s + [c])
    ensures Consume(FeedAll(p, s).0, c).1.Threw? ==> ThrowsExactly(p, s + [c])
  {
    assert (s + [c])[..|s|] == s;
  }

  lemma PositiveIsPlain(c: char)
    requires c < 256 as char
    ensures Promote(c) > 0 <==> PlainChar(c)
  {
  }

  /** A string of bytes. */
  predicate Bytes(u: string) {
    forall i | 0 <= i < |u| :: u[i] < 256 as char
  }

  /** Only acceptance, an exception or a byte that is not positive ends the loop. */
  lemma {:induction false} Outcomes(p0: Parser, s: string, u: string) returns (n: nat)
    requires Bytes(u) && FeedAll(p0, s).1.Progress? && FeedAll(p0, s).0.handler != Error
    ensures Ends(p0, s, u, n, ParseBytes(FeedAll(p0, s).0, u).1, ParseBytes(FeedAll(p0, s).0, u).2)
    decreases |u|
  {
    n := 0;
    if u != "" && Promote(u[0]) > 0 {
      PositiveIsPlain(u[0]);
      var q := FeedAll(p0, s).0;
      var (q', o) := Consume(q, u[0]);
      FeedSnoc(p0, s, u[0]);
      ParseOne(q, u);
      if o.Progress? {
        ProgressIsNotError(q, u[0]);
        n := Outcomes(p0, s + [u[0]], u[1..]);
        EndsLater(p0, s, u, n, ParseBytes(q, u).1, ParseBytes(q, u).2);
        n := n + 1;
      } else if o.Rejected? {
        RejectionIsPositive(q, u[0]);
        ErrorSwallows(q', u[1..]);
        StopLater(u);
      } else {
        n := 1;
        assert s + u[..1] == s + [u[0]];
      }
    }
  }

  /** The bytes begin with a complete request of plain bytes. */
  ghost predicate BeginsWithMessage(u: string) {
    exists m :: WellFormed(m) && Render(m) <= u && Plain(Render(m))
  }

  lemma AcceptedBeginning(r: Request, e: int, u: string, n: nat)
    requires r.body == "" && n <= |u| && Plain(u[..n]) && AcceptsExactly(NewParser(r, e), u[..n])
    ensures BeginsWithMessage(u)
  {
    ExactLanguage(r, e, u[..n]);
    var m :| WellFormed(m) && Render(m) == u[..n];
    assert Render(m) <= u;
  }

  lemma BeginningIsRead(r: Request, e: int, u: string)
    requires r.body == "" && BeginsWithMessage(u)
    ensures ParseBytes(NewParser(r, e), u).2 == Code(1)
  {
    var m :| WellFormed(m) && Render(m) <= u && Plain(Render(m));
    var rest := u[|Render(m)|..];
    assert u == Render(m) + rest;
    BuilderReadsMessage(r, e, m, rest);
  }

  /** The bytes begin with plain ones up to the end of a Content-Length line whose value `stoi`
      does not take. */
  ghost predicate BeginsWithBadLength(u: string) {
    exists w :: Valid(w) && BadLength(w) && Plain(Text(w) + "\r") && Text(w) + "\r" <= u
  }

  lemma ThrowingBeginning(r: Request, e: int, u: string, n: nat)
    requires r.body == "" && n <= |u| && Plain(u[..n]) && ThrowsExactly(NewParser(r, e), u[..n])
    ensures BeginsWithBadLength(u)
  {
    ThrowLanguage(r, e, u[..n]);
    var w :| Valid(w) && BadLength(w) && Text(w) + "\r" == u[..n];
    assert Text(w) + "\r" <= u;
  }

  lemma BadLengthThrows(r: Request, e: int, u: string)
    requires r.body == "" && BeginsWithBadLength(u)
    ensures ParseBytes(NewParser(r, e), u).2 == Exception
  {
    var w :| Valid(w) && BadLength(w) && Plain(Text(w) + "\r") && Text(w) + "\r" <= u;
    var s := Text(w) + "\r";
    assert u == s + u[|s|..];
    ThrowLanguage(r, e, s);
    ParseThrown(NewParser(r, e), s, u[|s|..]);
  }

  lemma EndNumbers(u: string)
    requires Bytes(u)
    ensures EndCode(u) == if Stop(u) == |u| || u[Stop(u)] as int == 255 then -1
                          else if u[Stop(u)] as int == 253 then -3 else 0
  {
  }

  /** On any bytes, the builder reports a request exactly when they begin with one made of plain
      bytes, and throws exactly when they begin with a bad Content-Length. Otherwise it reads up
      to the first byte that is not positive as a `char`, or to the end: that byte is lost, and a
      malformed request is never reported, since the state codes are positive and the loop looks
      for a negative one. */
  lemma BuilderLanguage(r: Request, e: int, u: string)
    requires r.body == "" && Bytes(u)
    ensures EndCode(u) == if Stop(u) == |u| || u[Stop(u)] as int == 255 then -1
                          else if u[Stop(u)] as int == 253 then -3 else 0
    ensures var (p, left, result) := ParseBytes(NewParser(r, e), u);
            && (result == Code(1) <==> BeginsWithMessage(u))
            && (result == Exception <==> BeginsWithBadLength(u))
            && (!BeginsWithMessage(u) && !BeginsWithBadLength(u) ==> result == Code(EndCode(u)) && left == AfterStop(u))
  {
    var p0 := NewParser(r, e);
    assert FeedAll(p0, "") == (p0, Progress);
    EndNumbers(u);
    var n := Outcomes(p0, "", u);
    if ParseBytes(p0, u).2 == Code(1) {
      assert "" + u[..n] == u[..n];
      AcceptedBeginning(r, e, u, n);
    } else if ParseBytes(p0, u).2 == Exception {
      assert "" + u[..n] == u[..n];
      ThrowingBeginning(r, e, u, n);
    }
    if BeginsWithMessage(u) {
      BeginningIsRead(r, e, u);
    }
    if BeginsWithBadLength(u) {
      BadLengthThrows(r, e, u);
    }
  }
}
