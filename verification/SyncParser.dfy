/** `RequestParser`, the pull-driven parser: tokens, lines and headers as functions of the unread
    bytes, the body with the reader's bulk read, and the class with its one character of push-back
    proved to compute them. */
module SyncParser {
  import opened Http
  import opened AsyncParser
  import opened Streams

  // ---------------------------------------------------------------------
  // CleanPath
  // ---------------------------------------------------------------------

  function StripSlashes(p: string): Option<string> {
    if p == "" then None
    else if p[|p| - 1] == '/' then StripSlashes(p[..|p| - 1])
    else Some(p)
  }

  function WithSlash(path: string): string {
    if path != "" && path[0] == '/' then path else "/" + path
  }

  /** `None`: the source calls `front()` or `back()` on an empty string. */
  function CleanPath(path: string): Option<string> {
    if path == "" then None else StripSlashes(WithSlash(path))
  }

  predicate AllSlashes(s: string) {
    forall i | 0 <= i < |s| :: s[i] == '/'
  }

  lemma {:induction false} Strip(p: string)
    ensures StripSlashes(p).None? <==> AllSlashes(p)
    ensures StripSlashes(p).Some? ==>
              var q := StripSlashes(p).value;
              q != "" && q[|q| - 1] != '/' && q <= p && AllSlashes(p[|q|..])
  {
    if p != "" && p[|p| - 1] == '/' {
      var front := p[..|p| - 1];
      Strip(front);
      assert p == front + ['/'];
      if StripSlashes(p).Some? {
        var q := StripSlashes(p).value;
        assert p[|q|..] == front[|q|..] + ['/'];
      }
    }
  }

  /** `CleanPath` is defined on the paths with something other than slashes; it puts a slash in
      front, takes trailing ones away and nothing else, and cleaning twice changes nothing. */
  lemma CleanPathMeaning(path: string)
    ensures CleanPath(path).None? <==> AllSlashes(path)
    ensures CleanPath(path).Some? ==>
              var q := CleanPath(path).value;
              && q != "" && q[0] == '/' && q[|q| - 1] != '/'
              && (if path[0] == '/' then q <= path && AllSlashes(path[|q|..])
                  else q[1..] <= path && AllSlashes(path[|q| - 1..]))
              && CleanPath(q) == Some(q)
  {
    var p := WithSlash(path);
    Strip(p);
    if CleanPath(path).Some? && path[0] != '/' {
      var q := CleanPath(path).value;
      assert p[1..] == path && p[|q|..] == path[|q| - 1..];
    }
    if !AllSlashes(path) {
      var i :| 0 <= i < |path| && path[i] != '/';
      assert p[if p == path then i else i + 1] == path[i];
    }
    assert AllSlashes(path) ==> AllSlashes(p);
  }

  method CleanPathInPlace(path: string) returns (cleaned: string)
    requires CleanPath(path).Some?
    ensures CleanPath(path) == Some(cleaned)
  {
    cleaned := path;
    if cleaned[0] != '/' {
      cleaned := "/" + cleaned;
    }
    while cleaned[|cleaned| - 1] == '/'
      invariant cleaned != "" && StripSlashes(cleaned) == CleanPath(path)
      decreases |cleaned|
    {
      cleaned := cleaned[..|cleaned| - 1];
    }
  }

  // ---------------------------------------------------------------------
  // Tokens
  // ---------------------------------------------------------------------

  datatype Token = Invalid | Str(value: string) | Space | Colon | NewLine | End

  const TOKEN_DELIMITERS := " :\r\n"
  const STRING_DELIMITERS := "\r\n"

  /** The byte whose promoted value is taken for the end of the input. */
  predicate LooksLikeEnd(c: char) {
    Promote(c) == END_OF_FILE
  }

  /** The characters up to a delimiter, and what is unread then. A delimiter is pushed back,
      except NUL: pushing back 0 leaves nothing to read again. */
  function Word(u: string, delimiters: string): (string, string) {
    if u == "" then ("", "")
    else if LooksLikeEnd(u[0]) || u[0] == '\0' then ("", u[1..])
    else if u[0] in delimiters then ("", u)
    else
      var (w, rest) := Word(u[1..], delimiters);
      ([u[0]] + w, rest)
  }

  /** Having read `value` of the word at the beginning of `u`, `v` is left. */
  ghost predicate Continues(u: string, v: string, delimiters: string, value: string) {
    Word(u, delimiters) == (value + Word(v, delimiters).0, Word(v, delimiters).1)
  }

  lemma ContinueWord(u: string, v: string, delimiters: string, value: string)
    requires v != "" && !LooksLikeEnd(v[0]) && v[0] != '\0' && v[0] !in delimiters
    requires Continues(u, v, delimiters, value)
    ensures Continues(u, v[1..], delimiters, value + [v[0]])
  {
    assert value + ([v[0]] + Word(v[1..], delimiters).0) == (value + [v[0]]) + Word(v[1..], delimiters).0;
  }

  lemma StopWord(u: string, v: string, delimiters: string, value: string)
    requires v == "" || LooksLikeEnd(v[0]) || v[0] == '\0' || v[0] in delimiters
    requires Continues(u, v, delimiters, value)
    ensures Word(u, delimiters).0 == value
    ensures Word(u, delimiters).1 ==
            if v == "" then "" else if LooksLikeEnd(v[0]) || v[0] == '\0' then v[1..] else [v[0]] + v[1..]
  {
    assert value + "" == value;
  }

  lemma Empty2(a: string)
    ensures "" + a == a
  {
  }

  /** After a carriage return. */
  function LineEnd(u: string): (Token, string) {
    if u == "" then (Invalid, "") else (if u[0] == '\n' then Token.NewLine else Invalid, u[1..])
  }

  function ReadStr(u: string, delimiters: string): (Token, string) {
    var (w, rest) := Word(u, delimiters);
    (Str(w), rest)
  }

  function ReadToken(u: string): (Token, string) {
    if u == "" then (End, "")
    else if LooksLikeEnd(u[0]) then (End, u[1..])
    else if u[0] == ' ' then (Token.Space, u[1..])
    else if u[0] == ':' then (Token.Colon, u[1..])
    else if u[0] == '\r' then LineEnd(u[1..])
    else ReadStr(u, TOKEN_DELIMITERS)
  }

  function SkipBlanks(u: string): string {
    if u != "" && u[0] == ' ' then SkipBlanks(u[1..]) else u
  }

  function ReadString(u: string): (Token, string) {
    var v := SkipBlanks(u);
    if v == "" then (End, "")
    else if LooksLikeEnd(v[0]) then (End, v[1..])
    else if v[0] == '\r' then LineEnd(v[1..])
    else ReadStr(v, STRING_DELIMITERS)
  }

  /** `v` is what is left of `u` after some bytes. */
  predicate IsRest(v: string, u: string) {
    |v| <= |u| && v == u[|u| - |v|..]
  }

  lemma RestOfRest(w: string, v: string, u: string)
    requires IsRest(w, v) && IsRest(v, u)
    ensures IsRest(w, u)
  {
    assert u[|u| - |v|..][|v| - |w|..] == u[|u| - |w|..];
  }

  lemma OneLess(u: string)
    requires u != ""
    ensures IsRest(u[1..], u)
  {
  }

  lemma {:induction false} WordLeavesRest(u: string, delimiters: string)
    ensures IsRest(Word(u, delimiters).1, u)
  {
    if u != "" {
      OneLess(u);
      WordLeavesRest(u[1..], delimiters);
      RestOfRest(Word(u[1..], delimiters).1, u[1..], u);
    }
  }

  lemma {:induction false} BlanksLeaveRest(u: string)
    ensures IsRest(SkipBlanks(u), u)
  {
    if u != "" && u[0] == ' ' {
      OneLess(u);
      BlanksLeaveRest(u[1..]);
      RestOfRest(SkipBlanks(u[1..]), u[1..], u);
    }
  }

  lemma LineEndLeavesRest(u: string)
    requires u != ""
    ensures IsRest(LineEnd(u[1..]).1, u)
  {
    OneLess(u);
    if u[1..] != "" {
      OneLess(u[1..]);
      RestOfRest(u[1..][1..], u[1..], u);
    }
  }

  lemma TokenLeavesRest(u: string)
    ensures IsRest(ReadToken(u).1, u)
    ensures ReadToken(u).0 == Token.Colon || ReadToken(u).0 == Token.NewLine ==> |ReadToken(u).1| < |u|
  {
    WordLeavesRest(u, TOKEN_DELIMITERS);
    if u != "" {
      OneLess(u);
      LineEndLeavesRest(u);
    }
  }

  lemma StringLeavesRest(u: string)
    ensures IsRest(ReadString(u).1, u)
  {
    var v := SkipBlanks(u);
    BlanksLeaveRest(u);
    WordLeavesRest(v, STRING_DELIMITERS);
    if v != "" {
      OneLess(v);
      LineEndLeavesRest(v);
    }
    RestOfRest(ReadString(u).1, v, u);
  }

  // ---------------------------------------------------------------------
  // The parser as a function of the unread bytes
  // ---------------------------------------------------------------------

  /** `ParseStatus`, and the two ways out the source does not name: an exception from `stoi`
      and an operation on an empty string or past the end of a buffer. */
  datatype Status = Ok | NotMatch | Failed | Threw | Undefined

  datatype Parsed = Parsed(request: Request, rest: string, status: Status)

  function ReadVersion(r: Request, u: string): Parsed {
    var (t, v) := ReadToken(u);
    if t != Token.Space then Parsed(r, v, Failed)
    else
      var (t1, v1) := ReadToken(v);
      if t1 != Str(VERSION_TEXT) then Parsed(r, v1, Failed)
      else
        var (t2, v2) := ReadToken(v1);
        Parsed(r.(version := HTTP_1_1), v2, if t2 == Token.NewLine then Ok else Failed)
  }

  function ReadPath(r: Request, u: string): Parsed {
    var (t, v) := ReadToken(u);
    if t != Token.Space then Parsed(r, v, Failed)
    else
      var (t1, v1) := ReadToken(v);
      if !t1.Str? then Parsed(r, v1, Failed)
      else if CleanPath(t1.value).None? then Parsed(r, v1, Undefined)
      else ReadVersion(r.(path := CleanPath(t1.value).value), v1)
  }

  function ReadStartLine(r: Request, u: string): Parsed {
    var (t, v) := ReadToken(u);
    if t == Str("GET") then ReadPath(r.(verb := GET), v)
    else if t == Str("POST") then ReadPath(r.(verb := POST), v)
    else Parsed(r, v, Failed)
  }

  /** The value of a header, and its line end. */
  function ReadValue(r: Request, key: string, u: string): Parsed {
    var (t, v) := ReadString(u);
    if !t.Str? then Parsed(r, v, Failed)
    else
      match StoreHeader(r, key, t.value)
      case None => Parsed(r, v, Status.Threw)
      case Some(q) =>
        var (t1, v1) := ReadToken(v);
        Parsed(q, v1, if t1 == Token.NewLine then Ok else Failed)
  }

  /** What follows the key of a header. */
  function ReadField(r: Request, key: string, u: string): Parsed {
    var (t, v) := ReadToken(u);
    if t != Token.Colon then Parsed(r, v, Failed)
    else
      var (t1, v1) := ReadToken(v);
      if t1 != Token.Space then Parsed(r, v1, Failed) else ReadValue(r, key, v1)
  }

  function ReadHeader(r: Request, u: string): Parsed {
    var (t, v) := ReadToken(u);
    if !t.Str? then Parsed(r, v, if t == Token.NewLine then NotMatch else Failed)
    else ReadField(r, t.value, v)
  }

  lemma ValueLeavesRest(r: Request, key: string, u: string)
    ensures IsRest(ReadValue(r, key, u).rest, u)
  {
    var v := ReadString(u).1;
    StringLeavesRest(u);
    TokenLeavesRest(v);
    RestOfRest(ReadToken(v).1, v, u);
  }

  lemma FieldLeavesRest(r: Request, key: string, u: string)
    ensures IsRest(ReadField(r, key, u).rest, u)
    ensures ReadField(r, key, u).status == Ok ==> |ReadField(r, key, u).rest| < |u|
  {
    var v := ReadToken(u).1;
    var v1 := ReadToken(v).1;
    TokenLeavesRest(u);
    TokenLeavesRest(v);
    RestOfRest(v1, v, u);
    ValueLeavesRest(r, key, v1);
    RestOfRest(ReadValue(r, key, v1).rest, v1, u);
  }

  lemma HeaderByToken(r: Request, u: string)
    ensures var (t, v) := ReadToken(u);
            && ReadHeader(r, u) == (if t.Str? then ReadField(r, t.value, v)
                                    else Parsed(r, v, if t == Token.NewLine then NotMatch else Failed))
            && (t.Str? ==> ReadField(r, t.value, v).status != NotMatch)
  {
  }

  lemma HeaderLeavesRest(r: Request, u: string)
    ensures var p := ReadHeader(r, u);
            && IsRest(p.rest, u)
            && (p.status == Ok || p.status == NotMatch ==> |p.rest| < |u|)
  {
    var (t, v) := ReadToken(u);
    TokenLeavesRest(u);
    if t.Str? {
      FieldLeavesRest(r, t.value, v);
      RestOfRest(ReadField(r, t.value, v).rest, v, u);
    }
  }

  /** Headers until one is not `Ok`. */
  function ReadHeaders(r: Request, u: string): Parsed
    decreases |u|
  {
    var p := ReadHeader(r, u);
    HeaderLeavesRest(r, u);
    if p.status == Ok then ReadHeaders(p.request, p.rest) else p
  }

  datatype Result = Code(n: int) | Exception | Crash

  const MAX_BODY := 4096

  /** `Body.resize(length)`. */
  function Resized(body: string, length: nat): (s: string)
    ensures |s| == length
  {
    if length <= |body| then body[..length] else body + seq(length - |body|, _ => '\0')
  }

  /** The body, when the head has been read: resized, and filled with what there is. */
  function ReadBody(r: Request, u: string): (Request, string, Result) {
    var length := r.contentLength;
    if length <= 0 then (r, u, Code(0))
    else if length > MAX_BODY then (r, u, Code(4))
    else if length <= |u| then (r.(body := u[..length]), u[length..], Code(0))
    else (r.(body := Filled(r.body, length, u)), "", Code(5))
  }

  /** The resized body with `data` written into it. */
  function Filled(body: string, length: nat, data: string): (s: string)
    requires |data| <= length
    ensures |s| == length
  {
    data + Resized(body, length)[|data|..]
  }

  /** A body cut short: what came, then what the request object held there before, then NUL. */
  lemma CutShort(body: string, length: nat, data: string, i: nat)
    requires |data| <= length && i < length
    ensures Filled(body, length, data)[i]
         == if i < |data| then data[i] else if i < |body| then body[i] else '\0'
  {
  }

  /** What `Parse` does once the loop over the headers has ended. */
  function AfterHeaders(head: Parsed): (Request, string, Result) {
    match head.status
    case Threw => (head.request, head.rest, Exception)
    case NotMatch => ReadBody(head.request, head.rest)
    case _ => (head.request, head.rest, Code(3))
  }

  /** `Parse` as a function of the bytes, with an exact read of the body. */
  function ReadRequest(r: Request, u: string): (Request, string, Result) {
    var line := ReadStartLine(r, u);
    match line.status
    case Undefined => (line.request, line.rest, Crash)
    case Ok => AfterHeaders(ReadHeaders(line.request, line.rest))
    case _ => (line.request, line.rest, Code(2))
  }

  /** Where the line and the headers end. */
  function ReadHead(r: Request, u: string): Parsed {
    var line := ReadStartLine(r, u);
    if line.status == Ok then ReadHeaders(line.request, line.rest) else line
  }

  predicate HasBody(head: Parsed) {
    head.status == NotMatch && 0 < head.request.contentLength <= MAX_BODY
  }

  /** The reader at the body: it started as `start`, and `rest` is left. */
  function BodyReader(start: Reader, rest: string): (v: Reader)
    requires ReaderOk(start)
    ensures ReaderOk(v) && v.clean == start.clean
  {
    if |rest| <= |BytesLeft(start)| then Skip(start, |BytesLeft(start)| - |rest|) else start
  }

  /** `_ParseBody` as it is, with the reader's bulk read; `Crash` is the copy past the end. */
  function BodyFrom(r: Request, v: Reader): (Request, string, Result)
    requires ReaderOk(v) && r.contentLength > 0
  {
    match BulkFrom(v, r.contentLength, "")
    case Overflow => (r, "", Crash)
    case Copied(data, v') =>
      (r.(body := Filled(r.body, r.contentLength, data)), BytesLeft(v'),
       Code(if |data| == r.contentLength then 0 else 5))
  }

  /** The same from the end of the loop over the headers on. */
  function RestFrom(head: Parsed, start: Reader): (Request, string, Result)
    requires ReaderOk(start)
  {
    if HasBody(head) then BodyFrom(head.request, BodyReader(start, head.rest)) else AfterHeaders(head)
  }

  /** `Parse` as it is, on a reader that starts as `start`. */
  function RequestFrom(r: Request, start: Reader): (Request, string, Result)
    requires ReaderOk(start)
  {
    var line := ReadStartLine(r, BytesLeft(start));
    if line.status == Ok then RestFrom(ReadHeaders(line.request, line.rest), start)
    else ReadRequest(r, BytesLeft(start))
  }

  /** A reader that has not been used. */
  function FreshReader(pending: string, limits: seq<nat>, clean: bool): Reader {
    Reader("", 0, pending, limits, clean, false)
  }

  // ---------------------------------------------------------------------
  // The class
  // ---------------------------------------------------------------------

  class RequestParser {
    const reader: BufferedStreamReader
    var request: Request
    var token: Token
    var next: char // the character pushed back, or NUL
    ghost const start: Reader // the reader at the beginning

    ghost predicate Valid()
      reads this, reader, reader.stream, reader.buffer
    {
      reader.Valid() && Advanced(start, reader.View()) && (next != '\0' ==> !reader.eof)
    }

    /** The bytes still to be read, the one pushed back first. */
    ghost function Unread(): string
      requires reader.Valid()
      reads this, reader, reader.stream, reader.buffer
    {
      if next == '\0' then reader.Unread() else [next] + reader.Unread()
    }

    /** A blank parser on a fresh reader. */
    constructor (stream: Stream, request: Request)
      requires stream.Valid()
      ensures Valid() && Unread() == stream.Pending() && this.request == request
      ensures reader.stream == stream && fresh(reader) && fresh(reader.buffer) && next == '\0' && !reader.eof
      ensures start == reader.View() == FreshReader(stream.Pending(), stream.limits, stream.CleanEnd())
    {
      var r := new BufferedStreamReader(stream);
      this.reader := r;
      this.start := r.View();
      this.request, this.token, this.next := request, Invalid, '\0';
    }

    method Next() returns (ch: int)
      requires Valid()
      modifies this`next, reader`head, reader`tail, reader`eof, reader.stream, reader.buffer
      ensures Valid() && reader.stream.closed == old(reader.stream.closed) && next == '\0'
      ensures old(Unread()) == "" ==> ch == END_OF_FILE && Unread() == ""
      ensures old(Unread()) != "" ==> ch == Promote(old(Unread())[0]) && Unread() == old(Unread())[1..] && !reader.eof
    {
      if next == '\0' {
        ReadAdvances(start, reader.View());
        ch := reader.Read();
      } else {
        ch := Promote(next);
        next := '\0';
      }
    }

    /** The source asserts that nothing is pushed back already. */
    method Rewind(ch: char)
      requires Valid() && next == '\0' && !reader.eof
      modifies this`next
      ensures Valid() && Unread() == if ch == '\0' then old(Unread()) else [ch] + old(Unread())
    {
      next := ch;
    }

    /** The loop that both token functions end with; `ch` has been read. */
    method ReadWord(ch0: int, ghost u: string, delimiters: string) returns (value: string)
      requires Valid() && next == '\0' && !reader.eof
      requires u != "" && ch0 == Promote(u[0]) && Unread() == u[1..]
      modifies this`next, reader`head, reader`tail, reader`eof, reader.stream, reader.buffer
      ensures Valid() && reader.stream.closed == old(reader.stream.closed)
      ensures (value, Unread()) == Word(u, delimiters)
    {
      value := "";
      var ch := ch0;
      ghost var v := u;
      Empty2(Word(u, delimiters).0);
      while ch != END_OF_FILE && !(Narrow(ch) in delimiters || ch == 0)
        invariant Valid() && next == '\0' && reader.stream.closed == old(reader.stream.closed)
        invariant if v == "" then ch == END_OF_FILE && Unread() == ""
                  else ch == Promote(v[0]) && Unread() == v[1..] && !reader.eof
        invariant Continues(u, v, delimiters, value)
        decreases |v|
      {
        ContinueWord(u, v, delimiters, value);
        value := value + [Narrow(ch)];
        v := v[1..];
        ch := Next();
      }
      StopWord(u, v, delimiters, value);
      if ch != END_OF_FILE {
        Rewind(Narrow(ch));
      }
    }

    /** A token that is a word. */
    method FinishWord(ch: int, ghost u: string, delimiters: string)
      requires Valid() && next == '\0' && !reader.eof
      requires u != "" && ch == Promote(u[0]) && Unread() == u[1..]
      modifies this`next, this`token, reader`head, reader`tail, reader`eof, reader.stream, reader.buffer
      ensures Valid() && reader.stream.closed == old(reader.stream.closed) && token.Str?
      ensures (token, Unread()) == ReadStr(u, delimiters)
    {
      var value := ReadWord(ch, u, delimiters);
      token := Str(value);
    }

    /** After a carriage return. */
    method FinishLine()
      requires Valid() && next == '\0'
      modifies this`next, this`token, reader`head, reader`tail, reader`eof, reader.stream, reader.buffer
      ensures Valid() && reader.stream.closed == old(reader.stream.closed) && next == '\0'
      ensures (token, Unread()) == LineEnd(old(Unread()))
      ensures token == Token.NewLine ==> !reader.eof
    {
      var ch := Next();
      token := if ch == Promote('\n') then Token.NewLine else Invalid;
    }

    /** The token that begins with `ch`, which has been read. */
    method FinishToken(ch: int, ghost u: string)
      requires Valid() && next == '\0' && !reader.eof && ch != END_OF_FILE
      requires u != "" && ch == Promote(u[0]) && Unread() == u[1..]
      modifies this`next, this`token, reader`head, reader`tail, reader`eof, reader.stream, reader.buffer
      ensures Valid() && reader.stream.closed == old(reader.stream.closed)
      ensures (token, Unread()) == ReadToken(u)
      ensures !token.Str? ==> next == '\0'
      ensures token == Token.NewLine ==> !reader.eof
    {
      if ch == Promote(' ') {
        token := Token.Space;
        return;
      }
      if ch == Promote(':') {
        token := Token.Colon;
        return;
      }
      if ch == Promote('\r') {
        FinishLine();
        return;
      }
      FinishWord(ch, u, TOKEN_DELIMITERS);
    }

    method NextToken()
      requires Valid()
      modifies this`next, this`token, reader`head, reader`tail, reader`eof, reader.stream, reader.buffer
      ensures Valid() && reader.stream.closed == old(reader.stream.closed)
      ensures (token, Unread()) == ReadToken(old(Unread()))
      ensures !token.Str? ==> next == '\0'
      ensures token == Token.NewLine ==> !reader.eof
    {
      ghost var u := Unread();
      var ch := Next();
      if ch == END_OF_FILE {
        token := End;
        return;
      }
      FinishToken(ch, u);
    }

    /** The loop over the blanks; `ch0` has been read. */
    method SkipSpaces(ch0: int, ghost u0: string) returns (ch: int, ghost u: string)
      requires Valid() && next == '\0' && !reader.eof
      requires u0 != "" && ch0 == Promote(u0[0]) && Unread() == u0[1..]
      modifies this`next, reader`head, reader`tail, reader`eof, reader.stream, reader.buffer
      ensures Valid() && reader.stream.closed == old(reader.stream.closed) && next == '\0'
      ensures u == SkipBlanks(u0)
      ensures if u == "" then ch == END_OF_FILE && Unread() == ""
              else ch == Promote(u[0]) && Unread() == u[1..] && !reader.eof
    {
      ch, u := ch0, u0;
      while ch == Promote(' ')
        invariant Valid() && next == '\0' && reader.stream.closed == old(reader.stream.closed)
        invariant if u == "" then ch == END_OF_FILE && Unread() == ""
                  else ch == Promote(u[0]) && Unread() == u[1..] && !reader.eof
        invariant SkipBlanks(u) == SkipBlanks(u0)
        decreases |u|
      {
        u := u[1..];
        ch := Next();
      }
    }

    method NextString()
      requires Valid()
      modifies this`next, this`token, reader`head, reader`tail, reader`eof, reader.stream, reader.buffer
      ensures Valid() && reader.stream.closed == old(reader.stream.closed)
      ensures (token, Unread()) == ReadString(old(Unread()))
      ensures !token.Str? ==> next == '\0'
      ensures token == Token.NewLine ==> !reader.eof
    {
      ghost var u := Unread();
      var ch := Next();
      if ch == END_OF_FILE {
        token := End;
        return;
      }
      ch, u := SkipSpaces(ch, u);
      if ch == END_OF_FILE {
        token := End;
        return;
      }
      if ch == Promote('\r') {
        FinishLine();
        return;
      }
      FinishWord(ch, u, STRING_DELIMITERS);
    }

    /** What a step has done, to compare with the functions above. */
    ghost function Now(status: Status): Parsed
      requires Valid()
      reads this, reader, reader.stream, reader.buffer
    {
      Parsed(request, Unread(), status)
    }

    method ParseVersion() returns (status: Status)
      requires Valid()
      modifies this, reader`head, reader`tail, reader`eof, reader.stream, reader.buffer
      ensures Valid() && reader.stream.closed == old(reader.stream.closed)
      ensures Now(status) == ReadVersion(old(request), old(Unread()))
    {
      NextToken();
      if token != Token.Space {
        return Failed;
      }
      NextToken();
      if token != Str(VERSION_TEXT) {
        return Failed;
      }
      request := request.(version := HTTP_1_1);
      NextToken();
      return if token != Token.NewLine then Failed else Ok;
    }

    method ParsePath() returns (status: Status)
      requires Valid()
      modifies this, reader`head, reader`tail, reader`eof, reader.stream, reader.buffer
      ensures Valid() && reader.stream.closed == old(reader.stream.closed)
      ensures Now(status) == ReadPath(old(request), old(Unread()))
    {
      NextToken();
      if token != Token.Space {
        return Failed;
      }
      NextToken();
      if !token.Str? {
        return Failed;
      }
      if CleanPath(token.value).None? {
        return Undefined;
      }
      var path := CleanPathInPlace(token.value);
      request := request.(path := path);
      status := ParseVersion();
    }

    /** `_ParseStartLine`, in three parts. */
    method ParseStartLine() returns (status: Status)
      requires Valid()
      modifies this, reader`head, reader`tail, reader`eof, reader.stream, reader.buffer
      ensures Valid() && reader.stream.closed == old(reader.stream.closed)
      ensures Now(status) == ReadStartLine(old(request), old(Unread()))
    {
      NextToken();
      if !token.Str? {
        return Failed;
      }
      if token.value == "GET" {
        request := request.(verb := GET);
      } else if token.value == "POST" {
        request := request.(verb := POST);
      } else {
        return Failed;
      }
      status := ParsePath();
    }

    /** The special headers and the others. */
    method Store(key: string, value: string) returns (threw: bool)
      modifies this`request
      ensures match StoreHeader(old(request), key, value)
              case None => threw && request == old(request)
              case Some(r) => !threw && request == r
    {
      threw := false;
      if key == "Content-Type" {
        request := request.(contentType := value);
      } else if key == "Content-Length" {
        var n := Stoi(value);
        if n.None? {
          return true;
        }
        request := request.(contentLength := n.value);
      } else if key == "Host" {
        request := request.(host := value);
      } else {
        request := request.(headers := request.headers[key := value]);
      }
    }

    method ParseValue(key: string) returns (status: Status)
      requires Valid()
      modifies this, reader`head, reader`tail, reader`eof, reader.stream, reader.buffer
      ensures Valid() && reader.stream.closed == old(reader.stream.closed)
      ensures Now(status) == ReadValue(old(request), key, old(Unread()))
      ensures status == Ok ==> next == '\0'
    {
      NextString();
      if !token.Str? {
        return Failed;
      }
      var threw := Store(key, token.value);
      if threw {
        return Status.Threw;
      }
      NextToken();
      return if token != Token.NewLine then Failed else Ok;
    }

    method ParseField(key: string) returns (status: Status)
      requires Valid()
      modifies this, reader`head, reader`tail, reader`eof, reader.stream, reader.buffer
      ensures Valid() && reader.stream.closed == old(reader.stream.closed)
      ensures Now(status) == ReadField(old(request), key, old(Unread()))
      ensures status == Ok ==> next == '\0'
    {
      NextToken();
      if token != Token.Colon {
        return Failed;
      }
      NextToken();
      if token != Token.Space {
        return Failed;
      }
      status := ParseValue(key);
    }

    /** `_ParseHeader`, in three parts. */
    method ParseHeader() returns (status: Status)
      requires Valid()
      modifies this, reader`head, reader`tail, reader`eof, reader.stream, reader.buffer
      ensures Valid() && reader.stream.closed == old(reader.stream.closed)
      ensures Now(status) == ReadHeader(old(request), old(Unread()))
      ensures status == Ok || status == NotMatch ==> next == '\0'
      ensures status == NotMatch ==> !reader.eof
    {
      ghost var r, u := request, Unread();
      NextToken();
      HeaderByToken(r, u);
      if !token.Str? {
        return if token == Token.NewLine then NotMatch else Failed;
      }
      status := ParseField(token.value);
      assert status != NotMatch;
    }

    /** The loop over the headers in `Parse`. */
    method ParseHeaders() returns (status: Status)
      requires Valid()
      modifies this, reader`head, reader`tail, reader`eof, reader.stream, reader.buffer
      ensures Valid() && reader.stream.closed == old(reader.stream.closed)
      ensures Now(status) == ReadHeaders(old(request), old(Unread()))
      ensures status == NotMatch ==> next == '\0' && !reader.eof
    {
      ghost var all := ReadHeaders(request, Unread());
      HeaderLeavesRest(request, Unread());
      status := ParseHeader();
      while status == Ok
        invariant Valid() && reader.stream.closed == old(reader.stream.closed)
        invariant if status == Ok then ReadHeaders(request, Unread()) == all else Now(status) == all
        invariant status == NotMatch ==> next == '\0' && !reader.eof
        decreases status == Ok, |Unread()|
      {
        HeaderLeavesRest(request, Unread());
        status := ParseHeader();
      }
    }

    /** What has happened is what `spec` says; after a crash nothing more is said. */
    ghost predicate Done(spec: (Request, string, Result), result: Result)
      requires reader.Valid()
      reads this, reader, reader.stream, reader.buffer
    {
      result == spec.2 && (result != Crash ==> request == spec.0 && Unread() == spec.1)
    }

    /** `_ParseBody`; the result is that of `Parse`. */
    method ParseBody() returns (result: Result)
      requires Valid() && next == '\0' && !reader.eof && request.contentLength > 0
      modifies this, reader`head, reader`tail, reader`eof, reader.stream, reader.buffer
      ensures reader.Valid() && Done(BodyFrom(old(request), old(reader.View())), result)
    {
      var length: nat := request.contentLength;
      var size: int, overflow: bool;
      var resized := Resized(request.body, length);
      var target := new char[length](i requires 0 <= i < length => resized[i]);
      assert target[..] == resized;
      size, overflow := reader.ReadBulk(target, length);
      if overflow {
        return Crash;
      }
      request := request.(body := target[..]);
      if size != length {
        return Code(5);
      }
      return Code(0);
    }

    lemma AtBody()
      requires Valid() && next == '\0' && !reader.eof
      ensures reader.View() == BodyReader(start, Unread())
    {
    }

    /** The rest of `Parse` when the headers have ended. */
    method FinishHead(ghost head: Parsed) returns (result: Result)
      requires Valid() && next == '\0' && !reader.eof && head == Now(NotMatch)
      modifies this, reader`head, reader`tail, reader`eof, reader.stream, reader.buffer
      ensures reader.Valid() && Done(RestFrom(head, start), result)
    {
      if request.contentLength > 0 {
        if request.contentLength > MAX_BODY {
          return Code(4);
        }
        AtBody();
        result := ParseBody();
        return;
      }
      return Code(0);
    }

    /** `Parse` from the loop over the headers on. */
    method ParseRest() returns (result: Result)
      requires Valid()
      modifies this, reader`head, reader`tail, reader`eof, reader.stream, reader.buffer
      ensures reader.Valid() && Done(RestFrom(ReadHeaders(old(request), old(Unread())), start), result)
    {
      var status := ParseHeaders();
      if status == Status.Threw {
        return Exception;
      }
      if status != NotMatch {
        return Code(3);
      }
      result := FinishHead(Now(NotMatch));
    }

    /** The whole outcome for a parser that has just been made, whatever the stream does. */
    method Parse() returns (result: Result)
      requires Valid() && next == '\0' && reader.View() == start
      modifies this, reader`head, reader`tail, reader`eof, reader.stream, reader.buffer
      ensures reader.Valid() && Done(RequestFrom(old(request), start), result)
    {
      var status := ParseStartLine();
      if status != Ok {
        return if status == Undefined then Crash else Code(2);
      }
      result := ParseRest();
    }
  }

  /** The request as it is when the parser returns. */
  method ParseHttpRequest(stream: Stream, request: Request) returns (result: Result, parsed: Request)
    requires stream.Valid()
    modifies stream
    ensures var start := FreshReader(old(stream.Pending()), old(stream.limits), old(stream.CleanEnd()));
            var spec := RequestFrom(request, start);
            result == spec.2 && (result != Crash ==> parsed == spec.0)
  {
    var parser := new RequestParser(stream, request);
    result := parser.Parse();
    parsed := parser.request;
  }
}
