/** What the pull-driven parser does with the requests the push-driven parser accepts, and so
    on which of them the two agree. */
module ParserAgreement {
  import opened Http
  import opened AsyncParser
  import opened Grammar
  import opened Printer
  import opened Streams
  import opened SyncParser
  import opened BodyReading

  /** A character that belongs to a word. */
  predicate Ordinary(c: char, delimiters: string) {
    !LooksLikeEnd(c) && c != '\0' && c !in delimiters
  }

  predicate AllOrdinary(w: string, delimiters: string) {
    forall i | 0 <= i < |w| :: Ordinary(w[i], delimiters)
  }

  lemma {:induction false} WordOf(w: string, c: char, rest: string, delimiters: string)
    requires AllOrdinary(w, delimiters) && c in delimiters && c != '\0' && !LooksLikeEnd(c)
    ensures Word(w + ([c] + rest), delimiters) == (w, [c] + rest)
  {
    if w == "" {
      Empty2([c] + rest);
    } else {
      WordOf(w[1..], c, rest, delimiters);
      assert (w + ([c] + rest))[1..] == w[1..] + ([c] + rest);
      assert w == [w[0]] + w[1..];
    }
  }

  lemma StrToken(w: string, c: char, rest: string)
    requires w != "" && AllOrdinary(w, TOKEN_DELIMITERS) && c in TOKEN_DELIMITERS
    ensures ReadToken(w + ([c] + rest)) == (Str(w), [c] + rest)
  {
    WordOf(w, c, rest, TOKEN_DELIMITERS);
    assert (w + ([c] + rest))[0] == w[0];
    assert ' ' in TOKEN_DELIMITERS && ':' in TOKEN_DELIMITERS && '\r' in TOKEN_DELIMITERS;
  }

  lemma MarkToken(rest: string)
    ensures ReadToken([' '] + rest) == (Token.Space, rest)
    ensures ReadToken([':'] + rest) == (Token.Colon, rest)
    ensures ReadToken(['\r'] + (['\n'] + rest)) == (Token.NewLine, rest)
  {
    assert ([' '] + rest)[1..] == rest && ([':'] + rest)[1..] == rest && (['\n'] + rest)[1..] == rest;
    assert (['\r'] + (['\n'] + rest))[1..] == ['\n'] + rest;
  }

  // ---------------------------------------------------------------------
  // The request line
  // ---------------------------------------------------------------------

  /** A path that is one word to the pull-driven parser. */
  predicate Simple(path: string) {
    '\0' !in path && ':' !in path
  }

  /** A NUL ends a word and is lost, so one at the end of the path is dropped. */
  function WithoutNul(path: string): string {
    if path != "" && path[|path| - 1] == '\0' then path[..|path| - 1] else path
  }

  /** The request lines that the pull-driven parser takes. */
  predicate CommonLine(verb: HttpMethod, path: string) {
    (verb == GET || verb == POST) && Simple(WithoutNul(path)) && !AllSlashes(WithoutNul(path))
  }

  lemma GroupLine(name: string, path: string, version: string, rest: string)
    ensures name + " " + path + " " + version + "\r\n" + rest
         == name + ([' '] + (path + ([' '] + (version + (['\r'] + (['\n'] + rest))))))
  {
  }

  lemma VersionIsWord()
    ensures AllOrdinary(VERSION_TEXT, TOKEN_DELIMITERS)
  {
  }

  lemma VersionPart(r: Request, rest: string)
    ensures ReadVersion(r, [' '] + (VERSION_TEXT + (['\r'] + (['\n'] + rest))))
         == Parsed(r.(version := HTTP_1_1), rest, Ok)
  {
    VersionIsWord();
    MarkToken(VERSION_TEXT + (['\r'] + (['\n'] + rest)));
    StrToken(VERSION_TEXT, '\r', ['\n'] + rest);
    MarkToken(rest);
  }

  lemma PathIsWord(path: string)
    requires PathOk(path) && Simple(path)
    ensures AllOrdinary(path, TOKEN_DELIMITERS)
  {
    forall i | 0 <= i < |path| ensures Ordinary(path[i], TOKEN_DELIMITERS) {
      assert path[i] in path;
      PathCharsAreNotDelimiters(path[i]);
    }
  }

  lemma PathPart(r: Request, path: string, rest: string)
    requires PathOk(path) && Simple(path)
    ensures var p := ReadPath(r, [' '] + (path + ([' '] + rest)));
            match CleanPath(path)
            case None => p.status == Undefined
            case Some(q) => p == ReadVersion(r.(path := q), [' '] + rest)
  {
    PathIsWord(path);
    MarkToken(path + ([' '] + rest));
    StrToken(path, ' ', rest);
  }

  /** A path is cut at its first colon, */
  lemma ColonPath(r: Request, word: string, rest: string)
    requires PathOk(word) && Simple(word)
    ensures ReadPath(r, [' '] + (word + ([':'] + rest))).status in {Failed, Undefined}
  {
    PathIsWord(word);
    MarkToken(word + ([':'] + rest));
    StrToken(word, ':', rest);
    MarkToken(rest);
  }

  /** A stop that is lost. */
  lemma {:induction false} LostWord(w: string, c: char, rest: string, delimiters: string)
    requires AllOrdinary(w, delimiters) && (c == '\0' || LooksLikeEnd(c))
    ensures Word(w + ([c] + rest), delimiters) == (w, rest)
  {
    if w == "" {
      Empty2([c] + rest);
      assert ([c] + rest)[1..] == rest;
    } else {
      LostWord(w[1..], c, rest, delimiters);
      assert (w + ([c] + rest))[1..] == w[1..] + ([c] + rest);
      assert w == [w[0]] + w[1..];
    }
  }

  /** and at its first NUL, which is not read again. */
  lemma NulPath(r: Request, word: string, rest: string)
    requires PathOk(word) && Simple(word)
    ensures var p := ReadPath(r, [' '] + (word + (['\0'] + rest)));
            match CleanPath(word)
            case None => p.status == Undefined
            case Some(q) => p == ReadVersion(r.(path := q), rest)
  {
    PathIsWord(word);
    MarkToken(word + (['\0'] + rest));
    LostWord(word, '\0', rest, TOKEN_DELIMITERS);
    assert (word + (['\0'] + rest))[0] == word[0];
    assert ' ' in TOKEN_DELIMITERS && ':' in TOKEN_DELIMITERS && '\r' in TOKEN_DELIMITERS;
  }

  lemma NoSpaceNoVersion(r: Request, u: string)
    requires u != "" && u[0] != ' '
    ensures ReadVersion(r, u).status == Failed
  {
  }

  lemma CutAt(s: string, n: nat, rest: string)
    requires n < |s|
    ensures s + rest == s[..n] + ([s[n]] + (s[n + 1..] + rest))
  {
  }

  /** The first character that ends the word. */
  lemma FirstStop(path: string) returns (n: nat)
    requires !Simple(path)
    ensures n < |path| && (path[n] == ':' || path[n] == '\0') && Simple(path[..n])
  {
    n := 0;
    while path[n] != ':' && path[n] != '\0'
      invariant n < |path| && Simple(path[..n])
      decreases |path| - n
    {
      n := n + 1;
      assert path[..n] == path[..n - 1] + [path[n - 1]];
    }
  }

  /** A path that is not one word: only a NUL at its very end is survived. */
  lemma CutPath(r: Request, path: string, rest: string)
    requires PathOk(path) && !Simple(path)
    ensures var p := ReadPath(r, [' '] + (path + ([' '] + rest)));
            var word := WithoutNul(path);
            if Simple(word) && CleanPath(word).Some? then
              p == ReadVersion(r.(path := CleanPath(word).value), [' '] + rest)
            else p.status in {Failed, Undefined}
  {
    var n := FirstStop(path);
    var word, after := path[..n], path[n + 1..];
    assert path[0] == '/' && n > 0 && word[0] == path[0];
    CutAt(path, n, [' '] + rest);
    var left := after + ([' '] + rest);
    if path[n] == ':' {
      ColonPath(r, word, left);
      assert WithoutNul(path)[n] == ':';
    } else {
      NulPath(r, word, left);
      if after == "" {
        Empty2([' '] + rest);
        assert WithoutNul(path) == word;
      } else {
        assert WithoutNul(path)[n] == '\0';
        assert left[0] == path[n + 1] && IsPathChar(path[n + 1]);
        PathCharsAreNotDelimiters(path[n + 1]);
        if CleanPath(word).Some? { NoSpaceNoVersion(r.(path := CleanPath(word).value), left); }
      }
    }
  }

  /** The method. */
  lemma VerbPart(r: Request, verb: HttpMethod, rest: string)
    requires verb != INVALID
    ensures var p := ReadStartLine(r, MethodToString(verb) + ([' '] + rest));
            if verb == GET || verb == POST then p == ReadPath(r.(verb := verb), [' '] + rest) else p.status == Failed
  {
    var name := MethodToString(verb);
    MethodRoundTrip(verb, "");
    LetterWord(name);
    StrToken(name, ' ', rest);
    MethodRoundTrip(GET, name);
    MethodRoundTrip(POST, name);
  }

  /** The request line: taken exactly if it is a common one. */
  lemma {:induction false} LineIsRead(r: Request, verb: HttpMethod, path: string, rest: string)
    requires verb != INVALID && PathOk(path)
    ensures var p := ReadStartLine(r, RequestLine(verb, path) + rest);
            if CommonLine(verb, path) then
              CleanPath(WithoutNul(path)).Some? &&
              p == Parsed(WithVerb(r, verb, CleanPath(WithoutNul(path)).value), rest, Ok)
            else p.status in {Failed, Undefined}
  {
    var afterPath := VERSION_TEXT + (['\r'] + (['\n'] + rest));
    GroupLine(MethodToString(verb), path, VERSION_TEXT, rest);
    VerbPart(r, verb, path + ([' '] + afterPath));
    CleanPathMeaning(WithoutNul(path));
    var q := r.(verb := verb);
    if Simple(path) {
      SimpleHasNoNul(path);
      PathPart(q, path, afterPath);
    } else {
      CutPath(q, path, afterPath);
    }
    if CleanPath(WithoutNul(path)).Some? {
      VersionPart(q.(path := CleanPath(WithoutNul(path)).value), rest);
    }
  }

  lemma SimpleHasNoNul(path: string)
    requires '\0' !in path
    ensures WithoutNul(path) == path
  {
    if path != "" { assert path[|path| - 1] in path; }
  }

  lemma LetterWord(name: string)
    requires forall c | c in name :: IsAlpha(c)
    ensures AllOrdinary(name, TOKEN_DELIMITERS)
  {
    forall i | 0 <= i < |name| ensures Ordinary(name[i], TOKEN_DELIMITERS) {
      assert name[i] in name;
    }
  }

  function WithVerb(r: Request, verb: HttpMethod, path: string): Request {
    r.(verb := verb, path := path, version := HTTP_1_1)
  }

  // ---------------------------------------------------------------------
  // Headers
  // ---------------------------------------------------------------------

  /** The headers that the pull-driven parser takes. */
  predicate CommonHeader(h: Header) {
    h.key != "" && SkipBlanks(h.value) != ""
  }

  predicate CommonHeaders(hs: seq<Header>) {
    forall i | 0 <= i < |hs| :: CommonHeader(hs[i])
  }

  /** It drops the blanks in front of a value. */
  function Trim(h: Header): Header {
    Header(h.key, SkipBlanks(h.value))
  }

  function Trimmed(hs: seq<Header>): (ts: seq<Header>)
    ensures |ts| == |hs| && forall i | 0 <= i < |hs| :: ts[i] == Trim(hs[i])
  {
    seq(|hs|, i requires 0 <= i < |hs| => Trim(hs[i]))
  }

  lemma {:induction false} BlanksOf(v: string, c: char, rest: string)
    requires c != ' '
    ensures SkipBlanks(v + ([c] + rest)) == SkipBlanks(v) + ([c] + rest)
    ensures SkipBlanks(v) != "" ==> SkipBlanks(v)[0] != ' '
    ensures forall d | d in SkipBlanks(v) :: d in v
  {
    if v == "" {
      Empty2([c] + rest);
    } else {
      BlanksOf(v[1..], c, rest);
      assert (v + ([c] + rest))[1..] == v[1..] + ([c] + rest);
    }
  }

  /** White space in front does not matter to `stoi`. */
  lemma {:induction false} BlanksAndStoi(v: string)
    ensures SkipSpaces(SkipBlanks(v)) == SkipSpaces(v)
    ensures Stoi(SkipBlanks(v)) == Stoi(v)
  {
    if v != "" && v[0] == ' ' {
      BlanksAndStoi(v[1..]);
    }
  }

  lemma TrimIsOk(h: Header)
    requires HeaderOk(h) && CommonHeader(h)
    ensures HeaderOk(Trim(h))
  {
    BlanksOf(h.value, '\r', "");
    BlanksAndStoi(h.value);
    var v := SkipBlanks(h.value);
    forall i | 0 <= i < |v| ensures IsHeaderValueChar(v[i]) {
      assert v[i] in h.value;
    }
  }

  lemma ValueIsWord(value: string)
    requires forall c | c in value :: IsHeaderValueChar(c)
    ensures AllOrdinary(value, STRING_DELIMITERS)
  {
    forall i | 0 <= i < |value| ensures Ordinary(value[i], STRING_DELIMITERS) {
      assert value[i] in value;
    }
  }

  /** The value in its trimmed form, as a token. */
  lemma ValueToken(value: string, rest: string)
    requires ValueOk(value)
    ensures var v, u := SkipBlanks(value), ['\r'] + (['\n'] + rest);
            ReadString(value + u) == if v == "" then (Token.NewLine, rest) else (Str(v), u)
  {
    var v, u := SkipBlanks(value), ['\r'] + (['\n'] + rest);
    BlanksOf(value, '\r', ['\n'] + rest);
    if v == "" {
      Empty2(u);
      MarkToken(rest);
    } else {
      ValueIsWord(v);
      WordOf(v, '\r', ['\n'] + rest, STRING_DELIMITERS);
      assert (v + u)[0] == v[0];
      assert v[0] in v && v[0] in value;
    }
  }

  lemma ValuePart(r: Request, key: string, value: string, rest: string)
    requires HeaderOk(Header(key, value))
    ensures var p := ReadValue(r, key, value + (['\r'] + (['\n'] + rest)));
            var v := SkipBlanks(value);
            if v == "" then p.status == Failed
            else StoreHeader(r, key, v).Some? && p == Parsed(StoreHeader(r, key, v).value, rest, Ok)
  {
    ValueToken(value, rest);
    MarkToken(rest);
    BlanksAndStoi(value);
  }

  lemma FieldPart(r: Request, h: Header, rest: string)
    requires HeaderOk(h)
    ensures ReadField(r, h.key, [':'] + ([' '] + (h.value + rest))) == ReadValue(r, h.key, h.value + rest)
  {
    MarkToken([' '] + (h.value + rest));
    MarkToken(h.value + rest);
  }

  lemma KeyIsWord(key: string)
    requires KeyOk(key)
    ensures AllOrdinary(key, TOKEN_DELIMITERS)
  {
  }

  lemma GroupHeader(key: string, value: string, rest: string)
    ensures key + ": " + value + "\r\n" + rest
         == key + ([':'] + ([' '] + (value + (['\r'] + (['\n'] + rest)))))
  {
  }

  /** One header line: taken exactly if it is a common one. */
  lemma HeaderIsRead(r: Request, h: Header, rest: string)
    requires HeaderOk(h)
    ensures var p := ReadHeader(r, HeaderLine(h) + rest);
            if CommonHeader(h) then
              HeaderOk(Trim(h)) && StoreHeader(r, h.key, Trim(h).value).Some? &&
              p == Parsed(StoreHeader(r, h.key, Trim(h).value).value, rest, Ok)
            else p.status == Failed
  {
    var line := [' '] + (h.value + (['\r'] + (['\n'] + rest)));
    GroupHeader(h.key, h.value, rest);
    if h.key == "" {
      Empty2([':'] + line);
      MarkToken(line);
    } else {
      KeyIsWord(h.key);
      StrToken(h.key, ':', line);
      FieldPart(r, h, ['\r'] + (['\n'] + rest));
      ValuePart(r, h.key, h.value, rest);
      if CommonHeader(h) { TrimIsOk(h); }
    }
  }

  /** The first line and the others. */
  lemma FirstLine(h: Header, hs: seq<Header>, tail: string)
    ensures HeaderLines([h] + hs) + tail == HeaderLine(h) + (HeaderLines(hs) + tail)
  {
    OptionalLine(h, true);
    HeaderLinesConcat([h], hs);
    Associate(HeaderLine(h), HeaderLines(hs), tail);
  }

  lemma StoreFirst(r: Request, h: Header, hs: seq<Header>)
    requires HeaderOk(h) && HeadersOk(hs)
    ensures HeadersOk([h] + hs)
    ensures StoreHeader(r, h.key, h.value).Some?
    ensures StoreHeaders(r, [h] + hs) == StoreHeaders(StoreHeader(r, h.key, h.value).value, hs)
  {
    StoreOne(r, h);
    StoreConcat(r, [h], hs);
  }

  /** A header that is refused ends the loop, one that is taken is stored and the loop goes on. */
  lemma HeadersGoOn(r: Request, h: Header, rest: string)
    requires HeaderOk(h)
    ensures !CommonHeader(h) ==> ReadHeaders(r, HeaderLine(h) + rest).status == Failed
    ensures CommonHeader(h) ==>
              StoreHeader(r, h.key, Trim(h).value).Some? &&
              ReadHeaders(r, HeaderLine(h) + rest) == ReadHeaders(StoreHeader(r, h.key, Trim(h).value).value, rest)
  {
    HeaderIsRead(r, h, rest);
    HeaderLeavesRest(r, HeaderLine(h) + rest);
  }

  /** A header block is stored in its trimmed form if all headers are common ones, and refused
      otherwise. */
  ghost predicate BlockIsRead(r: Request, hs: seq<Header>, tail: string) {
    if CommonHeaders(hs) then
      HeadersOk(Trimmed(hs)) &&
      ReadHeaders(r, HeaderLines(hs) + tail) == ReadHeaders(StoreHeaders(r, Trimmed(hs)), tail)
    else ReadHeaders(r, HeaderLines(hs) + tail).status == Failed
  }

  lemma FirstIsRead(r: Request, h: Header, others: seq<Header>, tail: string)
    requires HeaderOk(h) && HeadersOk(others)
    requires CommonHeader(h) ==>
               var q := StoreHeader(r, h.key, Trim(h).value); q.Some? ==> BlockIsRead(q.value, others, tail)
    ensures BlockIsRead(r, [h] + others, tail)
  {
    FirstLine(h, others, tail);
    HeadersGoOn(r, h, HeaderLines(others) + tail);
    CommonSplit(h, others);
    if CommonHeader(h) && CommonHeaders(others) {
      TrimIsOk(h);
      StoreFirst(r, Trim(h), Trimmed(others));
    }
  }

  lemma {:induction false} HeadersAreRead(r: Request, hs: seq<Header>, tail: string)
    requires HeadersOk(hs)
    ensures BlockIsRead(r, hs, tail)
    decreases |hs|
  {
    if hs == [] {
      Empty2(tail);
    } else {
      assert hs == [hs[0]] + hs[1..];
      var q := StoreHeader(r, hs[0].key, Trim(hs[0]).value);
      if q.Some? {
        HeadersAreRead(q.value, hs[1..], tail);
      }
      FirstIsRead(r, hs[0], hs[1..], tail);
    }
  }

  lemma CommonSplit(h: Header, others: seq<Header>)
    ensures CommonHeaders([h] + others) <==> CommonHeader(h) && CommonHeaders(others)
    ensures Trimmed([h] + others) == [Trim(h)] + Trimmed(others)
  {
    var hs := [h] + others;
    if CommonHeaders(hs) {
      assert CommonHeader(hs[0]);
      forall i | 0 <= i < |others| ensures CommonHeader(others[i]) {
        assert CommonHeader(hs[i + 1]);
      }
    }
  }

  lemma EndingIsRead(r: Request, ending: string, body: string)
    requires KeyOk(ending)
    ensures var p := ReadHeaders(r, ending + (['\r'] + (['\n'] + body)));
            if ending == "" then p == Parsed(r, body, NotMatch) else p.status == Failed
  {
    var tail := ['\r'] + (['\n'] + body);
    MarkToken(body);
    if ending == "" {
      Empty2(tail);
    } else {
      KeyIsWord(ending);
      StrToken(ending, '\r', ['\n'] + body);
    }
  }

  // ---------------------------------------------------------------------
  // Whole messages
  // ---------------------------------------------------------------------

  /** The messages whose head the pull-driven parser takes. */
  predicate Common(m: Message) {
    CommonLine(m.verb, m.path) && CommonHeaders(m.headers) && m.ending == ""
  }

  /** The path the pull-driven parser stores. */
  function PathUsed(m: Message): Option<string> {
    CleanPath(WithoutNul(m.path))
  }

  lemma GroupMessage(line: string, lines: string, ending: string, body: string)
    ensures line + lines + ending + "\r\n" + body == line + (lines + (ending + (['\r'] + (['\n'] + body))))
  {
  }

  /** The head of a message, for any request object to store it in. */
  lemma {:induction false} HeadIsRead(r: Request, m: Message)
    requires WellFormed(m)
    ensures Common(m) ==>
              HeadersOk(Trimmed(m.headers)) && PathUsed(m).Some? &&
              ReadHead(r, Render(m)) ==
              Parsed(StoreHeaders(WithVerb(r, m.verb, PathUsed(m).value), Trimmed(m.headers)), m.body, NotMatch)
    ensures !Common(m) ==> ReadHead(r, Render(m)).status in {Failed, Undefined}
  {
    var tail := m.ending + (['\r'] + (['\n'] + m.body));
    GroupMessage(RequestLine(m.verb, m.path), HeaderLines(m.headers), m.ending, m.body);
    LineIsRead(r, m.verb, m.path, HeaderLines(m.headers) + tail);
    if CommonLine(m.verb, m.path) {
      var q := WithVerb(r, m.verb, PathUsed(m).value);
      HeadersAreRead(q, m.headers, tail);
      if CommonHeaders(m.headers) {
        EndingIsRead(StoreHeaders(q, Trimmed(m.headers)), m.ending, m.body);
      }
    }
  }

  /** Is the length stated at all? */
  predicate StatesLength(hs: seq<Header>) {
    exists i | 0 <= i < |hs| :: hs[i].key == "Content-Length"
  }

  lemma StatesLast(hs: seq<Header>)
    requires hs != []
    ensures StatesLength(hs) <==> hs[|hs| - 1].key == "Content-Length" || StatesLength(hs[..|hs| - 1])
  {
    var front := hs[..|hs| - 1];
    if StatesLength(front) {
      var i :| 0 <= i < |front| && front[i].key == "Content-Length";
      assert hs[i].key == "Content-Length";
    }
  }

  /** Storing headers leaves the path alone, and the length unless one is stated. */
  lemma {:induction false} StoreFrame(r: Request, hs: seq<Header>, path: string, n: int)
    requires HeadersOk(hs)
    ensures StoreHeaders(r.(path := path, contentLength := n), hs)
         == StoreHeaders(r, hs).(path := path,
                                 contentLength := if StatesLength(hs) then StoreHeaders(r, hs).contentLength else n)
    ensures StatesLength(hs) ==> StoreHeaders(r, hs).contentLength == ContentLength(hs)
    ensures !StatesLength(hs) ==> StoreHeaders(r, hs).contentLength == r.contentLength && ContentLength(hs) == 0
  {
    if hs != [] {
      var front, last := hs[..|hs| - 1], hs[|hs| - 1];
      StoreFrame(r, front, path, n);
      StatesLast(hs);
      var q := StoreHeaders(r, front);
      StoreFrameOne(q, last, path, if StatesLength(front) then q.contentLength else n);
    }
  }

  lemma StoreFrameOne(q: Request, h: Header, path: string, n: int)
    requires HeaderOk(h)
    ensures var s := StoreHeader(q, h.key, h.value);
            var t := StoreHeader(q.(path := path, contentLength := n), h.key, h.value);
            && s.Some? && t.Some?
            && (h.key == "Content-Length" ==>
                  t.value == s.value.(path := path) && s.value.contentLength == Stoi(h.value).value)
            && (h.key != "Content-Length" ==>
                  t.value == s.value.(path := path, contentLength := n) && s.value.contentLength == q.contentLength)
  {
  }

  // ---------------------------------------------------------------------
  // When trimming does not matter
  // ---------------------------------------------------------------------

  /** The value that counts for a key: the last one. */
  function LastValue(hs: seq<Header>, key: string): Option<string> {
    if hs == [] then None
    else if hs[|hs| - 1].key == key then Some(hs[|hs| - 1].value)
    else LastValue(hs[..|hs| - 1], key)
  }

  predicate BeginsBlank(value: string) {
    value != "" && value[0] == ' '
  }

  /** No value that counts begins with a blank, except that of Content-Length. */
  predicate NoBlankCounts(hs: seq<Header>) {
    forall i | 0 <= i < |hs| && hs[i].key != "Content-Length" ::
      var v := LastValue(hs, hs[i].key); v.Some? && !BeginsBlank(v.value)
  }

  /** Where a header of this key is kept. */
  function Field(r: Request, key: string): Option<string> {
    if key == "Content-Type" then Some(r.contentType)
    else if key == "Host" then Some(r.host)
    else if key in r.headers then Some(r.headers[key])
    else None
  }

  lemma {:induction false} StoredField(q: Request, hs: seq<Header>, key: string)
    requires HeadersOk(hs) && key != "Content-Length"
    ensures Field(StoreHeaders(q, hs), key)
         == match LastValue(hs, key) case None => Field(q, key) case Some(v) => Some(v)
  {
    if hs != [] {
      var front, last := hs[..|hs| - 1], hs[|hs| - 1];
      StoredField(q, front, key);
      assert HeaderOk(last);
      FieldOfStored(StoreHeaders(q, front), last, key);
    }
  }

  lemma FieldOfStored(q: Request, h: Header, key: string)
    requires HeaderOk(h) && key != "Content-Length"
    ensures var s := StoreHeader(q, h.key, h.value);
            s.Some? && Field(s.value, key) == if h.key == key then Some(h.value) else Field(q, key)
  {
  }

  lemma {:induction false} LastOfTrimmed(hs: seq<Header>, key: string)
    ensures LastValue(Trimmed(hs), key)
         == match LastValue(hs, key) case None => None case Some(v) => Some(SkipBlanks(v))
  {
    if hs != [] {
      assert Trimmed(hs)[..|hs| - 1] == Trimmed(hs[..|hs| - 1]);
      LastOfTrimmed(hs[..|hs| - 1], key);
    }
  }

  lemma {:induction false} LastIsThere(hs: seq<Header>, key: string)
    ensures LastValue(hs, key).Some? <==> exists i :: 0 <= i < |hs| && hs[i].key == key
  {
    if hs != [] {
      var front := hs[..|hs| - 1];
      LastIsThere(front, key);
      if exists i :: 0 <= i < |front| && front[i].key == key {
        var i :| 0 <= i < |front| && front[i].key == key;
        assert hs[i].key == key;
      }
    }
  }

  lemma {:induction false} SkippingBlanks(v: string)
    ensures SkipBlanks(v) == v <==> !BeginsBlank(v)
  {
    if v != "" && v[0] == ' ' {
      BlanksLeaveRest(v[1..]);
    }
  }

  /** Two requests that differ at most in what headers can change. */
  ghost predicate SameOutside(a: Request, b: Request) {
    && a == b.(contentType := a.contentType, host := a.host, headers := a.headers)
    && (forall k | IsSpecial(k) ::
          (k in a.headers <==> k in b.headers) && (k in a.headers ==> a.headers[k] == b.headers[k]))
  }

  lemma SameFields(a: Request, b: Request)
    requires SameOutside(a, b)
    requires forall key | key != "Content-Length" :: Field(a, key) == Field(b, key)
    ensures a == b
  {
    assert Field(a, "Content-Type") == Field(b, "Content-Type") && Field(a, "Host") == Field(b, "Host");
    forall k | k in a.headers || k in b.headers
      ensures k in a.headers && k in b.headers && a.headers[k] == b.headers[k]
    {
      if !IsSpecial(k) { assert Field(a, k) == Field(b, k); }
    }
    assert a.headers == b.headers;
  }

  /** What storing headers leaves alone. */
  lemma {:induction false} StoredOutside(q: Request, hs: seq<Header>)
    requires HeadersOk(hs)
    ensures SameOutside(StoreHeaders(q, hs).(contentLength := q.contentLength), q)
  {
    if hs != [] {
      var front, last := hs[..|hs| - 1], hs[|hs| - 1];
      StoredOutside(q, front);
      assert HeaderOk(last);
    }
  }

  lemma {:induction false} TrimmedLength(hs: seq<Header>)
    requires HeadersOk(hs) && HeadersOk(Trimmed(hs))
    ensures StatesLength(Trimmed(hs)) <==> StatesLength(hs)
    ensures ContentLength(Trimmed(hs)) == ContentLength(hs)
  {
    if hs != [] {
      var front, last := hs[..|hs| - 1], hs[|hs| - 1];
      assert Trimmed(hs)[..|hs| - 1] == Trimmed(front);
      TrimmedLength(front);
      BlanksAndStoi(last.value);
      StatesLast(hs);
      StatesLast(Trimmed(hs));
    }
  }

  lemma TrimmedOutside(q: Request, hs: seq<Header>)
    requires HeadersOk(hs) && HeadersOk(Trimmed(hs))
    ensures SameOutside(StoreHeaders(q, Trimmed(hs)), StoreHeaders(q, hs))
  {
    StoredOutside(q, hs);
    StoredOutside(q, Trimmed(hs));
    TrimmedLength(hs);
    StoreFrame(q, hs, "", 0);
    StoreFrame(q, Trimmed(hs), "", 0);
  }

  /** The trimmed headers store the same request if and only if no value that counts begins
      with a blank. */
  lemma TrimmingDoesNotMatter(q: Request, hs: seq<Header>)
    requires HeadersOk(hs) && HeadersOk(Trimmed(hs))
    ensures StoreHeaders(q, Trimmed(hs)) == StoreHeaders(q, hs) <==> NoBlankCounts(hs)
  {
    var a, b := StoreHeaders(q, Trimmed(hs)), StoreHeaders(q, hs);
    if NoBlankCounts(hs) {
      TrimmedOutside(q, hs);
      forall key | key != "Content-Length" ensures Field(a, key) == Field(b, key) {
        TrimmedField(q, hs, key);
        LastIsThere(hs, key);
      }
      SameFields(a, b);
    }
    if a == b {
      forall i | 0 <= i < |hs| && hs[i].key != "Content-Length"
        ensures var v := LastValue(hs, hs[i].key); v.Some? && !BeginsBlank(v.value)
      {
        TrimmedField(q, hs, hs[i].key);
        LastIsThere(hs, hs[i].key);
      }
    }
  }

  lemma TrimmedField(q: Request, hs: seq<Header>, key: string)
    requires HeadersOk(hs) && HeadersOk(Trimmed(hs)) && key != "Content-Length"
    ensures var v := LastValue(hs, key);
            v.Some? ==>
              (Field(StoreHeaders(q, Trimmed(hs)), key) == Field(StoreHeaders(q, hs), key) <==> !BeginsBlank(v.value))
    ensures LastValue(hs, key).None? ==> Field(StoreHeaders(q, Trimmed(hs)), key) == Field(StoreHeaders(q, hs), key)
  {
    StoredField(q, hs, key);
    StoredField(q, Trimmed(hs), key);
    LastOfTrimmed(hs, key);
    var v := LastValue(hs, key);
    if v.Some? { SkippingBlanks(v.value); }
  }

  // ---------------------------------------------------------------------
  // Agreement
  // ---------------------------------------------------------------------

  /** What the push-driven parser stores for a message, but with the path cleaned. */
  function Expected(r: Request, m: Message): Request
    requires WellFormed(m) && CleanPath(m.path).Some?
  {
    Meaning(r, m).(path := CleanPath(m.path).value)
  }

  /** Both parsers accept the message, to its last byte, and store the same request up to the
      cleaning of the path, however the stream of the pull-driven one splits the bytes and ends. */
  ghost predicate Agree(r: Request, e: int, m: Message) {
    && AcceptsExactly(NewParser(r, e), Render(m)) && CleanPath(m.path).Some?
    && forall limits: seq<nat>, clean: bool | Positive(limits) ::
         RequestFrom(r, FreshReader(Render(m), limits, clean))
         == (FeedAll(NewParser(r, e), Render(m)).0.request.(path := CleanPath(m.path).value), "", Code(0))
  }

  /** The length the pull-driven parser works with. */
  function LengthUsed(r: Request, m: Message): int
    requires WellFormed(m)
  {
    if StatesLength(m.headers) then ContentLength(m.headers) else r.contentLength
  }

  /** The request after the head of a common message. */
  function HeadStored(r: Request, m: Message): Request
    requires PathUsed(m).Some? && HeadersOk(Trimmed(m.headers))
  {
    StoreHeaders(WithVerb(r, m.verb, PathUsed(m).value), Trimmed(m.headers))
  }

  /** What the head leaves in the request if trimming does not matter. */
  lemma StoredHead(r: Request, m: Message)
    requires WellFormed(m) && CleanPath(m.path).Some? && r.body == ""
    ensures StoreHeaders(WithVerb(r, m.verb, CleanPath(m.path).value), m.headers)
         == Expected(r, m).(contentLength := LengthUsed(r, m), body := "")
    ensures Expected(r, m).contentLength == ContentLength(m.headers)
    ensures Expected(r, m).body == m.body && Expected(r, m).path == CleanPath(m.path).value
    ensures !StatesLength(m.headers) ==> ContentLength(m.headers) == 0
  {
    var q := WithLine(r, m.verb, m.path);
    StoreFrame(q, m.headers, CleanPath(m.path).value, r.contentLength);
    StoredLength(q, m.headers);
  }

  /** What it leaves in any case. */
  lemma HeadFrame(r: Request, m: Message)
    requires WellFormed(m) && PathUsed(m).Some? && HeadersOk(Trimmed(m.headers)) && r.body == ""
    ensures var q := HeadStored(r, m);
            q.path == PathUsed(m).value && q.body == "" && q.contentLength == LengthUsed(r, m)
  {
    StoredOutside(WithVerb(r, m.verb, PathUsed(m).value), Trimmed(m.headers));
    TrimmedLength(m.headers);
    StoreFrame(WithVerb(r, m.verb, PathUsed(m).value), Trimmed(m.headers), "", 0);
  }

  /** The body is read as expected if and only if the lengths agree and are in range. */
  lemma BodyAgrees(q: Request, n: int, body: string)
    requires q.body == body && |body| == ToSize(q.contentLength) && q.contentLength >= INT_MIN
    ensures ReadBody(q.(contentLength := n, body := ""), body) == (q, "", Code(0)) <==>
            n == q.contentLength && 0 <= n <= MAX_BODY
  {
    var p := q.(contentLength := n, body := "");
    assert body[..|body|] == body;
    if n != q.contentLength {
      assert ReadBody(p, body).0.contentLength == n;
    } else if 0 < n <= MAX_BODY {
      assert body[..n] == body && body[n..] == "";
    }
  }

  /** Reading a body changes nothing but the body. */
  lemma BodyFrame(q: Request, u: string, p: Request)
    requires q.body == "" && ReadBody(q, u).0 == p
    ensures q == p.(body := "")
  {
  }

  /** The code of the pull-driven parser, from where the head leaves it. */
  lemma ResultOfHead(r: Request, u: string)
    ensures var p := ReadHead(r, u);
            && (p.status == NotMatch ==> ReadRequest(r, u) == ReadBody(p.request, p.rest))
            && (p.status in {Failed, Undefined} ==> ReadRequest(r, u).2 in {Code(2), Code(3), Crash})
  {
    LineIsNoMatch(r, u);
  }

  /** On a message the body is never followed by anything. */
  lemma MessageIsSafe(r: Request, m: Message)
    requires WellFormed(m) && r.body == ""
    ensures BodySafe(ReadHead(r, Render(m)), true)
    ensures StatesLength(m.headers) || r.contentLength == 0 ==> forall clean :: BodySafe(ReadHead(r, Render(m)), clean)
  {
    HeadIsRead(r, m);
    if Common(m) {
      HeadFrame(r, m);
      StoredLength(WithLine(r, m.verb, m.path), m.headers);
      StoreFrame(WithLine(r, m.verb, m.path), m.headers, "", 0);
    }
  }

  /** What the parsers must share: a common head without a NUL in its path, a length of 0 to 4096
      that is stated unless the request object already holds 0, and no blank in front of a value
      that counts. */
  predicate Shared(r: Request, m: Message)
    requires WellFormed(m)
  {
    && Common(m) && '\0' !in m.path && NoBlankCounts(m.headers)
    && 0 <= ContentLength(m.headers) <= 4096 && (StatesLength(m.headers) || r.contentLength == 0)
  }

  /** A path with a NUL at its end is stored without it. */
  lemma NulIsLost(m: Message)
    requires PathOk(m.path) && '\0' in m.path && Simple(WithoutNul(m.path)) && CleanPath(m.path).Some?
    ensures PathUsed(m) != CleanPath(m.path)
  {
    var path := m.path;
    assert path[|path| - 1] == '\0';
    assert CleanPath(path) == Some(path);
    CleanPathMeaning(WithoutNul(path));
  }

  /** The bytes alone: what the pull-driven parser stores is what is expected. */
  lemma AgreeOnBytes(r: Request, m: Message)
    requires WellFormed(m) && r.body == "" && CleanPath(m.path).Some?
    ensures ReadRequest(r, Render(m)) == (Expected(r, m), "", Code(0)) <==> Shared(r, m)
  {
    HeadIsRead(r, m);
    ResultOfHead(r, Render(m));
    if Common(m) {
      HeadFrame(r, m);
      if '\0' in m.path {
        NulIsLost(m);
        PathDiffers(r, m);
      } else {
        SimpleHasNoNul(m.path);
        AgreeWithoutNul(r, m);
      }
    }
  }

  lemma PathDiffers(r: Request, m: Message)
    requires WellFormed(m) && r.body == "" && HeadersOk(Trimmed(m.headers))
    requires CleanPath(m.path).Some? && PathUsed(m).Some? && PathUsed(m) != CleanPath(m.path)
    ensures ReadBody(HeadStored(r, m), m.body).0 != Expected(r, m)
  {
    HeadFrame(r, m);
    StoredHead(r, m);
  }

  lemma AgreeWithoutNul(r: Request, m: Message)
    requires WellFormed(m) && r.body == "" && CleanPath(m.path).Some? && HeadersOk(Trimmed(m.headers))
    requires PathUsed(m) == CleanPath(m.path)
    ensures ReadBody(HeadStored(r, m), m.body) == (Expected(r, m), "", Code(0)) <==>
            && NoBlankCounts(m.headers) && 0 <= ContentLength(m.headers) <= MAX_BODY
            && (StatesLength(m.headers) || r.contentLength == 0)
  {
    var q := WithVerb(r, m.verb, CleanPath(m.path).value);
    StoredHead(r, m);
    HeadFrame(r, m);
    TrimmingDoesNotMatter(q, m.headers);
    BodyAgrees(Expected(r, m), LengthUsed(r, m), m.body);
    if ReadBody(HeadStored(r, m), m.body) == (Expected(r, m), "", Code(0)) {
      BodyFrame(HeadStored(r, m), m.body, Expected(r, m));
    }
  }

  /** Agreement: of the messages the push-driven parser accepts, the two parsers agree on exactly
      the shared ones, for every way the bytes arrive. */
  lemma {:induction false} Agreement(r: Request, e: int, m: Message)
    requires WellFormed(m) && r.body == ""
    ensures Agree(r, e, m) <==> Shared(r, m)
  {
    AcceptedMeaning(r, e, m);
    MessageIsSafe(r, m);
    var u := Render(m);
    if CleanPath(m.path).Some? {
      AgreeOnBytes(r, m);
      ParseIsExact(r, u, [], true);
      if Shared(r, m) {
        forall limits: seq<nat>, clean: bool | Positive(limits)
          ensures RequestFrom(r, FreshReader(u, limits, clean)) == (Expected(r, m), "", Code(0))
        {
          ParseIsExact(r, u, limits, clean);
        }
      }
    } else {
      CleanPathMeaning(m.path);
      OnlySlashes(m);
    }
  }

  lemma OnlySlashes(m: Message)
    requires PathOk(m.path) && AllSlashes(m.path)
    ensures !Common(m)
  {
    assert m.path[|m.path| - 1] == '/';
  }
}
