/** The language of the push-driven parser: a grammar of requests, independent of the parser's
    states, and the proof that the parser accepts exactly its sentences with their meaning. */
module Grammar {
  import opened Http
  import opened AsyncParser

  /** A request in source form. `ending` is what stands before the CRLF of the empty line. */
  datatype Message = Message(verb: HttpMethod, path: string, headers: seq<Header>, ending: string, body: string)

  function RequestLine(verb: HttpMethod, path: string): string {
    MethodToString(verb) + " " + path + " " + VERSION_TEXT + "\r\n"
  }

  function HeaderLine(h: Header): string {
    h.key + ": " + h.value + "\r\n"
  }

  function HeaderLines(hs: seq<Header>): string {
    if hs == [] then "" else HeaderLines(hs[..|hs| - 1]) + HeaderLine(hs[|hs| - 1])
  }

  function Render(m: Message): string {
    RequestLine(m.verb, m.path) + HeaderLines(m.headers) + m.ending + "\r\n" + m.body
  }

  predicate PathOk(path: string) {
    path != "" && path[0] == '/' && forall i | 0 <= i < |path| :: IsPathChar(path[i])
  }

  predicate KeyOk(key: string) {
    forall i | 0 <= i < |key| :: IsHeaderKeyChar(key[i])
  }

  predicate ValueOk(value: string) {
    value != "" && forall i | 0 <= i < |value| :: IsHeaderValueChar(value[i])
  }

  predicate HeaderOk(h: Header) {
    KeyOk(h.key) && ValueOk(h.value) && (h.key == "Content-Length" ==> Stoi(h.value).Some?)
  }

  predicate HeadersOk(hs: seq<Header>) {
    forall i | 0 <= i < |hs| :: HeaderOk(hs[i])
  }

  /** The last Content-Length counts; without one the length is 0. */
  function ContentLength(hs: seq<Header>): (n: int)
    requires HeadersOk(hs)
    ensures INT_MIN <= n <= INT_MAX
  {
    if hs == [] then 0
    else if hs[|hs| - 1].key == "Content-Length" then Stoi(hs[|hs| - 1].value).value
    else ContentLength(hs[..|hs| - 1])
  }

  predicate WellFormed(m: Message) {
    && m.verb != INVALID && PathOk(m.path) && HeadersOk(m.headers) && KeyOk(m.ending)
    && |m.body| == ToSize(ContentLength(m.headers))
  }

  /** The special headers go to their own fields, the others into the map, later ones
      replacing earlier ones. */
  function StoreHeaders(r: Request, hs: seq<Header>): Request
    requires HeadersOk(hs)
  {
    if hs == [] then r
    else
      var last := hs[|hs| - 1];
      assert HeaderOk(last);
      StoreHeader(StoreHeaders(r, hs[..|hs| - 1]), last.key, last.value).value
  }

  /** What a request object holds after the request line. */
  function WithLine(r: Request, verb: HttpMethod, path: string): Request {
    r.(contentLength := 0, verb := verb, path := path, version := HTTP_1_1)
  }

  /** The request a well-formed message stands for, read into the object `r`. */
  function Meaning(r: Request, m: Message): Request
    requires WellFormed(m)
  {
    StoreHeaders(WithLine(r, m.verb, m.path), m.headers).(body := m.body)
  }

  // ---------------------------------------------------------------------
  // Beginnings of messages
  // ---------------------------------------------------------------------

  datatype Head = Head(verb: HttpMethod, path: string, headers: seq<Header>)

  /** How far a reader has come; one alternative for each place in the grammar. */
  datatype Partial =
    | InMethod(word: string)
    | AfterMethod(verb: HttpMethod)
    | InPath(verb: HttpMethod, path: string)
    | AfterPath(verb: HttpMethod, path: string)
    | InVersion(verb: HttpMethod, path: string, n: nat)
    | AfterVersion(verb: HttpMethod, path: string)
    | InKey(head: Head, key: string)
    | AfterColon(head: Head, key: string)
    | AfterSpace(head: Head, key: string)
    | InValue(head: Head, key: string, value: string)
    | AfterValue(head: Head)
    | AtEnd(head: Head, ending: string)
    | InBody(head: Head, ending: string, body: string)

  predicate LineOk(verb: HttpMethod, path: string) {
    verb != INVALID && PathOk(path)
  }

  predicate HeadOk(h: Head) {
    LineOk(h.verb, h.path) && HeadersOk(h.headers)
  }

  predicate Valid(w: Partial) {
    match w
    case InMethod(word) => forall i | 0 <= i < |word| :: IsAlpha(word[i])
    case AfterMethod(verb) => verb != INVALID
    case InPath(verb, path) => LineOk(verb, path)
    case AfterPath(verb, path) => LineOk(verb, path)
    case InVersion(verb, path, n) => LineOk(verb, path) && 1 <= n <= 8
    case AfterVersion(verb, path) => LineOk(verb, path)
    case InKey(h, key) => HeadOk(h) && KeyOk(key)
    case AfterColon(h, key) => HeadOk(h) && KeyOk(key)
    case AfterSpace(h, key) => HeadOk(h) && KeyOk(key)
    case InValue(h, key, value) => HeadOk(h) && KeyOk(key) && ValueOk(value)
    case AfterValue(h) => HeadOk(h) && h.headers != []
    case AtEnd(h, ending) => HeadOk(h) && KeyOk(ending)
    case InBody(h, ending, body) =>
      HeadOk(h) && KeyOk(ending)
      && ContentLength(h.headers) != 0 && |body| < ToSize(ContentLength(h.headers))
  }

  function HeadText(h: Head): string {
    RequestLine(h.verb, h.path) + HeaderLines(h.headers)
  }

  function Front(h: Head): Head
    requires h.headers != []
  {
    h.(headers := h.headers[..|h.headers| - 1])
  }

  function Last(h: Head): Header
    requires h.headers != []
  {
    h.headers[|h.headers| - 1]
  }

  function Text(w: Partial): string
    requires Valid(w)
  {
    match w
    case InMethod(word) => word
    case AfterMethod(verb) => MethodToString(verb) + " "
    case InPath(verb, path) => MethodToString(verb) + " " + path
    case AfterPath(verb, path) => MethodToString(verb) + " " + path + " "
    case InVersion(verb, path, n) => MethodToString(verb) + " " + path + " " + VERSION_TEXT[..n]
    case AfterVersion(verb, path) => MethodToString(verb) + " " + path + " " + VERSION_TEXT + "\r"
    case InKey(h, key) => HeadText(h) + key
    case AfterColon(h, key) => HeadText(h) + key + ":"
    case AfterSpace(h, key) => HeadText(h) + key + ": "
    case InValue(h, key, value) => HeadText(h) + key + ": " + value
    case AfterValue(h) => HeadText(Front(h)) + Last(h).key + ": " + Last(h).value + "\r"
    case AtEnd(h, ending) => HeadText(h) + ending + "\r"
    case InBody(h, ending, body) => HeadText(h) + ending + "\r\n" + body
  }

  function HeadRequest(r: Request, h: Head): Request
    requires HeadOk(h)
  {
    StoreHeaders(WithLine(r, h.verb, h.path), h.headers)
  }

  function LastKey(h: Head): string {
    if h.headers == [] then "" else Last(h).key
  }

  /** The request object after `Text(w)` has been read into `r`. */
  function RequestAt(r: Request, w: Partial): Request
    requires Valid(w)
  {
    match w
    case InMethod(_) => r.(contentLength := 0)
    case AfterMethod(verb) => r.(contentLength := 0, verb := verb)
    case InPath(verb, _) => r.(contentLength := 0, verb := verb)
    case AfterPath(verb, path) => r.(contentLength := 0, verb := verb, path := path)
    case InVersion(verb, path, _) => r.(contentLength := 0, verb := verb, path := path)
    case AfterVersion(verb, path) => WithLine(r, verb, path)
    case InBody(h, _, body) => HeadRequest(r, h).(body := body)
    case _ => HeadRequest(r, w.head)
  }

  /** The parser that has read `Text(w)` and whose request object is now `q`. */
  function StateOf(q: Request, e: int, w: Partial): Parser {
    match w
    case InMethod(word) => Parser(if word == "" then Start else Method, word, "", q, e)
    case AfterMethod(_) => Parser(Space1, "", "", q, e)
    case InPath(_, path) => Parser(Path, path, "", q, e)
    case AfterPath(_, _) => Parser(Space2, "", "", q, e)
    case InVersion(_, _, n) => Parser(Version, if n <= 8 then VERSION_TEXT[..n] else "", "", q, e)
    case AfterVersion(_, _) => Parser(NewLine, "", "", q, e)
    case InKey(h, key) => Parser(HeaderKey, key, LastKey(h), q, e)
    case AfterColon(_, key) => Parser(Colon, "", key, q, e)
    case AfterSpace(_, key) => Parser(Space3, "", key, q, e)
    case InValue(_, key, value) => Parser(HeaderValue, value, key, q, e)
    case AfterValue(h) => Parser(HeaderNewLine, "", LastKey(h), q, e)
    case AtEnd(h, ending) => Parser(EndLine, ending, LastKey(h), q, e)
    case InBody(h, ending, _) => Parser(Body, ending, LastKey(h), q, e)
  }

  /** One character less. */
  function Before(w: Partial): (Partial, char)
    requires Valid(w) && w != InMethod("")
  {
    match w
    case InMethod(word) => (InMethod(word[..|word| - 1]), word[|word| - 1])
    case AfterMethod(verb) => (InMethod(MethodToString(verb)), ' ')
    case InPath(verb, path) =>
      if |path| == 1 then (AfterMethod(verb), '/') else (InPath(verb, path[..|path| - 1]), path[|path| - 1])
    case AfterPath(verb, path) => (InPath(verb, path), ' ')
    case InVersion(verb, path, n) =>
      if n == 1 then (AfterPath(verb, path), 'H') else (InVersion(verb, path, n - 1), VERSION_TEXT[n - 1])
    case AfterVersion(verb, path) => (InVersion(verb, path, 8), '\r')
    case InKey(h, key) =>
      if key != "" then (InKey(h, key[..|key| - 1]), key[|key| - 1])
      else if h.headers == [] then (AfterVersion(h.verb, h.path), '\n')
      else (AfterValue(h), '\n')
    case AfterColon(h, key) => (InKey(h, key), ':')
    case AfterSpace(h, key) => (AfterColon(h, key), ' ')
    case InValue(h, key, value) =>
      if |value| == 1 then (AfterSpace(h, key), value[0])
      else (InValue(h, key, value[..|value| - 1]), value[|value| - 1])
    case AfterValue(h) => (InValue(Front(h), Last(h).key, Last(h).value), '\r')
    case AtEnd(h, ending) => (InKey(h, ending), '\r')
    case InBody(h, ending, body) =>
      if body == "" then (AtEnd(h, ending), '\n')
      else (InBody(h, ending, body[..|body| - 1]), body[|body| - 1])
  }

  lemma {:induction false} StoredLength(r: Request, hs: seq<Header>)
    requires HeadersOk(hs) && r.contentLength == 0
    ensures StoreHeaders(r, hs).contentLength == ContentLength(hs)
    ensures StoreHeaders(r, hs).body == r.body
  {
    if hs != [] {
      StoredLength(r, hs[..|hs| - 1]);
    }
  }

  lemma BeforeIsValid(w: Partial)
    requires Valid(w) && w != InMethod("")
    ensures Valid(Before(w).0)
  {
    match w
    case AfterMethod(verb) => MethodRoundTrip(verb, "");
    case AfterValue(h) => assert HeaderOk(Last(h));
    case _ =>
  }

  // String algebra, kept away from the definitions above.

  lemma Snoc(a: string, s: string)
    requires s != ""
    ensures a + s == (a + s[..|s| - 1]) + [s[|s| - 1]]
    ensures s == s[..|s| - 1] + [s[|s| - 1]]
    ensures |s| == 1 ==> a + s == a + [s[0]]
  {
  }

  lemma Empty(a: string)
    ensures a + "" == a
  {
  }

  lemma CrLf(a: string)
    ensures a + "\r\n" == (a + "\r") + ['\n']
  {
  }

  lemma ColonSpace(a: string)
    ensures a + ": " == (a + ":") + [' ']
  {
  }

  lemma Regroup(line: string, lines: string, key: string, value: string)
    ensures line + (lines + (key + ": " + value + "\r\n")) == (line + lines + key + ": " + value) + "\r\n"
  {
  }

  lemma VersionPrefix(line: string, n: nat)
    requires 1 <= n <= 8
    ensures VERSION_TEXT[..n] == VERSION_TEXT[..n - 1] + [VERSION_TEXT[n - 1]]
    ensures line + VERSION_TEXT[..n] == (line + VERSION_TEXT[..n - 1]) + [VERSION_TEXT[n - 1]]
    ensures line + VERSION_TEXT[..1] == line + ['H']
    ensures VERSION_TEXT[..8] == VERSION_TEXT
  {
  }

  ghost predicate TextSteps(w: Partial)
    requires Valid(w) && w != InMethod("") && Valid(Before(w).0)
  {
    Text(w) == Text(Before(w).0) + [Before(w).1]
  }

  lemma TextLine(w: Partial)
    requires InLine(w) && Valid(w) && w != InMethod("") && Valid(Before(w).0)
    ensures TextSteps(w)
  {
    match w
    case InMethod(word) => Snoc("", word);
    case AfterMethod(verb) =>
    case InPath(verb, path) => Snoc(MethodToString(verb) + " ", path);
    case AfterPath(verb, path) =>
    case InVersion(verb, path, n) => VersionPrefix(MethodToString(verb) + " " + path + " ", n);
    case AfterVersion(verb, path) => VersionPrefix("", 8);
  }

  lemma TextKey(h: Head, key: string)
    requires HeadOk(h) && KeyOk(key) && key != ""
    ensures Valid(Before(InKey(h, key)).0) && TextSteps(InKey(h, key))
  {
    Snoc(HeadText(h), key);
  }

  lemma TextFirstKey(h: Head)
    requires HeadOk(h) && h.headers == []
    ensures Valid(Before(InKey(h, "")).0) && TextSteps(InKey(h, ""))
  {
    CrLf(MethodToString(h.verb) + " " + h.path + " " + VERSION_TEXT);
    Empty(RequestLine(h.verb, h.path));
    Empty(HeadText(h));
    assert HeadText(h) == RequestLine(h.verb, h.path) + "";
  }

  /** The end of a header line, with its line feed split off. */
  lemma HeadTextSplit(h: Head)
    requires h.headers != []
    ensures HeadText(h) == (HeadText(Front(h)) + Last(h).key + ": " + Last(h).value) + "\r\n"
  {
    Regroup(RequestLine(h.verb, h.path), HeaderLines(Front(h).headers), Last(h).key, Last(h).value);
    assert HeaderLines(h.headers) == HeaderLines(Front(h).headers) + HeaderLine(Last(h));
  }

  lemma TextNextKey(h: Head)
    requires HeadOk(h) && h.headers != []
    ensures Valid(Before(InKey(h, "")).0) && TextSteps(InKey(h, ""))
  {
    Empty(HeadText(h));
    HeadTextSplit(h);
    CrLf(HeadText(Front(h)) + Last(h).key + ": " + Last(h).value);
  }

  lemma TextFirstValue(h: Head, key: string, value: string)
    requires HeadOk(h) && KeyOk(key) && ValueOk(value) && |value| == 1
    ensures Text(InValue(h, key, value)) == Text(AfterSpace(h, key)) + [value[0]]
  {
    assert value == [value[0]];
  }

  lemma TextMoreValue(h: Head, key: string, value: string)
    requires HeadOk(h) && KeyOk(key) && ValueOk(value) && |value| > 1
    ensures var front := InValue(h, key, value[..|value| - 1]);
            Valid(front) && Text(InValue(h, key, value)) == Text(front) + [value[|value| - 1]]
  {
    Snoc(HeadText(h) + key + ": ", value);
  }

  lemma TextValue(h: Head, key: string, value: string)
    requires HeadOk(h) && KeyOk(key) && ValueOk(value)
    ensures Valid(Before(InValue(h, key, value)).0) && TextSteps(InValue(h, key, value))
  {
    if |value| == 1 { TextFirstValue(h, key, value); } else { TextMoreValue(h, key, value); }
  }

  lemma TextBody(h: Head, ending: string, body: string)
    requires Valid(InBody(h, ending, body))
    ensures Valid(Before(InBody(h, ending, body)).0) && TextSteps(InBody(h, ending, body))
  {
    CrLf(HeadText(h) + ending);
    Empty(HeadText(h) + ending + "\r\n");
    if body != "" { Snoc(HeadText(h) + ending + "\r\n", body); }
  }

  /** Reading one more character of the grammar adds that character to the text. */
  lemma BeforeText(w: Partial)
    requires Valid(w) && w != InMethod("")
    ensures Valid(Before(w).0) && TextSteps(w)
  {
    BeforeIsValid(w);
    match w
    case InKey(h, key) =>
      if key != "" { TextKey(h, key); } else if h.headers == [] { TextFirstKey(h); } else { TextNextKey(h); }
    case AfterColon(h, key) =>
    case AfterSpace(h, key) => ColonSpace(HeadText(h) + key);
    case InValue(h, key, value) => TextValue(h, key, value);
    case AfterValue(h) =>
    case AtEnd(h, ending) =>
    case InBody(h, ending, body) => TextBody(h, ending, body);
    case _ => TextLine(w);
  }

  // ---------------------------------------------------------------------
  // The parser follows the grammar
  // ---------------------------------------------------------------------

  /** The parser goes from `w` and request `q` to `w'` and request `q'` on one character. */
  ghost predicate Steps(q: Request, e: int, w: Partial, ch: char, q': Request, w': Partial) {
    Consume(StateOf(q, e, w), ch) == (StateOf(q', e, w'), Progress)
  }

  lemma MethodSteps(q: Request, e: int, word: string, verb: HttpMethod)
    ensures word != "" && IsAlpha(word[|word| - 1]) ==>
              Steps(q, e, InMethod(word[..|word| - 1]), word[|word| - 1], q, InMethod(word))
    ensures verb != INVALID ==>
              Steps(q, e, InMethod(MethodToString(verb)), ' ', q.(verb := verb), AfterMethod(verb))
  {
    if word != "" { Snoc("", word); }
    MethodRoundTrip(verb, "");
  }

  lemma PathSteps(q: Request, e: int, verb: HttpMethod, path: string)
    requires |path| > 1 && IsPathChar(path[|path| - 1])
    ensures Steps(q, e, InPath(verb, path[..|path| - 1]), path[|path| - 1], q, InPath(verb, path))
  {
    Snoc("", path);
    PathCharsAreNotDelimiters(path[|path| - 1]);
  }

  lemma PathEnds(q: Request, e: int, verb: HttpMethod, path: string)
    ensures path == "/" ==> Steps(q, e, AfterMethod(verb), '/', q, InPath(verb, path))
    ensures Steps(q, e, InPath(verb, path), ' ', q.(path := path), AfterPath(verb, path))
  {
    assert "" + ['/'] == "/";
  }

  lemma VersionSteps(q: Request, e: int, verb: HttpMethod, path: string, n: nat)
    ensures Steps(q, e, AfterPath(verb, path), 'H', q, InVersion(verb, path, 1))
    ensures 1 <= n < 8 ==> Steps(q, e, InVersion(verb, path, n), VERSION_TEXT[n], q, InVersion(verb, path, n + 1))
  {
    if 1 <= n < 8 { VersionPrefix("", n + 1); }
    assert VERSION_TEXT[..1] == "" + ['H'];
  }

  lemma LineEnds(q: Request, e: int, verb: HttpMethod, path: string)
    ensures Steps(q, e, InVersion(verb, path, 8), '\r', q.(version := HTTP_1_1), AfterVersion(verb, path))
    ensures Steps(q, e, AfterVersion(verb, path), '\n', q, InKey(Head(verb, path, []), ""))
  {
    VersionPrefix("", 8);
  }

  lemma KeySteps(q: Request, e: int, h: Head, key: string)
    ensures key != "" && IsHeaderKeyChar(key[|key| - 1]) ==>
              Steps(q, e, InKey(h, key[..|key| - 1]), key[|key| - 1], q, InKey(h, key))
    ensures Steps(q, e, InKey(h, key), ':', q, AfterColon(h, key))
    ensures Steps(q, e, AfterColon(h, key), ' ', q, AfterSpace(h, key))
    ensures Steps(q, e, InKey(h, key), '\r', q, AtEnd(h, key))
  {
    if key != "" { Snoc("", key); }
  }

  lemma ValueSteps(q: Request, e: int, h: Head, key: string, value: string)
    requires value != "" && IsHeaderValueChar(value[|value| - 1])
    ensures |value| == 1 ==> Steps(q, e, AfterSpace(h, key), value[0], q, InValue(h, key, value))
    ensures |value| > 1 ==>
              Steps(q, e, InValue(h, key, value[..|value| - 1]), value[|value| - 1], q, InValue(h, key, value))
  {
    Snoc("", value);
  }

  lemma HeaderEnds(q: Request, e: int, h: Head, q': Request)
    requires h.headers != [] && StoreHeader(q, Last(h).key, Last(h).value) == Some(q')
    ensures Steps(q, e, InValue(Front(h), Last(h).key, Last(h).value), '\r', q', AfterValue(h))
    ensures Steps(q', e, AfterValue(h), '\n', q', InKey(h, ""))
  {
    HeaderValueEnds(Parser(HeaderValue, Last(h).value, Last(h).key, q, e), q');
  }

  lemma HeaderValueEnds(p: Parser, r: Request)
    requires p.handler == HeaderValue && StoreHeader(p.request, p.key, p.token) == Some(r)
    ensures Consume(p, '\r') == (p.(request := r, token := "", handler := HeaderNewLine), Progress)
  {
    assert ConsumeHeaderValue(p, '\r') == (p.(request := r, token := "", handler := HeaderNewLine), Progress);
  }

  lemma BodySteps(q: Request, e: int, h: Head, ending: string, body: string)
    requires q.contentLength != 0 && |body| < ToSize(q.contentLength)
    ensures q.body == "" ==> Steps(q, e, AtEnd(h, ending), '\n', q, InBody(h, ending, ""))
    ensures body != "" && q.body == body[..|body| - 1] ==>
              Steps(q, e, InBody(h, ending, body[..|body| - 1]), body[|body| - 1],
                    q.(body := body), InBody(h, ending, body))
  {
    if body != "" { Snoc("", body); }
  }

  lemma StoreLast(r: Request, h: Head)
    requires HeadOk(h) && h.headers != []
    ensures HeadOk(Front(h))
    ensures StoreHeader(HeadRequest(r, Front(h)), Last(h).key, Last(h).value) == Some(HeadRequest(r, h))
  {
    assert HeaderOk(Last(h));
  }

  lemma HeadLength(r: Request, h: Head)
    requires HeadOk(h)
    ensures HeadRequest(r, h).contentLength == ContentLength(h.headers)
    ensures HeadRequest(r, h).body == r.body
  {
    StoredLength(WithLine(r, h.verb, h.path), h.headers);
  }

  /** The parser that has read `w`, having started with request object `r`. */
  function StateAt(r: Request, e: int, w: Partial): Parser
    requires Valid(w)
  {
    StateOf(RequestAt(r, w), e, w)
  }

  ghost predicate Follows(r: Request, e: int, w: Partial)
    requires Valid(w) && w != InMethod("") && Valid(Before(w).0)
  {
    Steps(RequestAt(r, Before(w).0), e, Before(w).0, Before(w).1, RequestAt(r, w), w)
  }

  lemma FollowsAfterValue(r: Request, e: int, h: Head)
    requires Valid(AfterValue(h)) && Valid(Before(AfterValue(h)).0)
    ensures Follows(r, e, AfterValue(h))
  {
    StoreLast(r, h);
    HeaderEnds(HeadRequest(r, Front(h)), e, h, HeadRequest(r, h));
    assert Before(AfterValue(h)) == (InValue(Front(h), Last(h).key, Last(h).value), '\r');
  }

  lemma FollowsNextKey(r: Request, e: int, h: Head)
    requires Valid(AfterValue(h))
    ensures Before(InKey(h, "")) == (AfterValue(h), '\n') && Follows(r, e, InKey(h, ""))
  {
    StoreLast(r, h);
    HeaderEnds(HeadRequest(r, Front(h)), e, h, HeadRequest(r, h));
  }

  lemma FollowsBody(r: Request, e: int, h: Head, ending: string, body: string)
    requires Valid(InBody(h, ending, body)) && Valid(Before(InBody(h, ending, body)).0) && r.body == ""
    ensures Follows(r, e, InBody(h, ending, body))
  {
    HeadLength(r, h);
    var q := HeadRequest(r, h);
    if body == "" {
      BodySteps(q, e, h, ending, body);
      assert q.(body := "") == q;
    } else {
      BodySteps(q.(body := body[..|body| - 1]), e, h, ending, body);
    }
  }

  lemma FollowsLine(r: Request, e: int, w: Partial)
    requires w.InMethod? || w.AfterMethod? || w.InPath? || w.AfterPath?
    requires Valid(w) && w != InMethod("") && Valid(Before(w).0)
    ensures Follows(r, e, w)
  {
    var q := RequestAt(r, Before(w).0);
    match w
    case InMethod(word) => MethodSteps(q, e, word, GET);
    case AfterMethod(verb) => MethodSteps(q, e, "", verb);
    case InPath(verb, path) => FollowsPath(r, e, verb, path);
    case AfterPath(verb, path) => PathEnds(q, e, verb, path);
  }

  lemma FollowsPath(r: Request, e: int, verb: HttpMethod, path: string)
    requires LineOk(verb, path) && Valid(Before(InPath(verb, path)).0)
    ensures Follows(r, e, InPath(verb, path))
  {
    var q := r.(contentLength := 0, verb := verb);
    if |path| > 1 {
      PathSteps(q, e, verb, path);
    } else {
      assert path == "/";
      PathEnds(q, e, verb, path);
    }
  }

  lemma FollowsVersion(r: Request, e: int, w: Partial)
    requires w.InVersion? || w.AfterVersion?
    requires Valid(w) && Valid(Before(w).0)
    ensures Follows(r, e, w)
  {
    var q := RequestAt(r, Before(w).0);
    match w
    case InVersion(verb, path, n) => VersionSteps(q, e, verb, path, n - 1);
    case AfterVersion(verb, path) => LineEnds(q, e, verb, path);
  }

  lemma FollowsKey(r: Request, e: int, w: Partial)
    requires (w.InKey? && w.key != "") || w.AfterColon? || w.AfterSpace? || w.AtEnd?
    requires Valid(w) && Valid(Before(w).0)
    ensures Follows(r, e, w)
  {
    var q := HeadRequest(r, w.head);
    match w
    case InKey(h, key) => KeySteps(q, e, h, key);
    case AfterColon(h, key) => KeySteps(q, e, h, key);
    case AfterSpace(h, key) => KeySteps(q, e, h, key);
    case AtEnd(h, ending) => KeySteps(q, e, h, ending);
  }

  lemma FollowsFirstKey(r: Request, e: int, h: Head)
    requires HeadOk(h) && h.headers == []
    ensures Valid(Before(InKey(h, "")).0) && Follows(r, e, InKey(h, ""))
  {
    LineEnds(WithLine(r, h.verb, h.path), e, h.verb, h.path);
    assert h == Head(h.verb, h.path, []);
    assert HeadRequest(r, h) == WithLine(r, h.verb, h.path);
  }

  lemma FollowsValue(r: Request, e: int, h: Head, key: string, value: string)
    requires Valid(InValue(h, key, value)) && Valid(Before(InValue(h, key, value)).0)
    ensures Follows(r, e, InValue(h, key, value))
  {
    var q := HeadRequest(r, h);
    ValueSteps(q, e, h, key, value);
    if |value| == 1 {
      assert Before(InValue(h, key, value)) == (AfterSpace(h, key), value[0]);
    } else {
      assert Before(InValue(h, key, value)) == (InValue(h, key, value[..|value| - 1]), value[|value| - 1]);
    }
  }

  lemma BeforeStateOfHeader(r: Request, e: int, w: Partial)
    requires w.AfterColon? || w.AfterSpace? || w.InValue? || w.AfterValue? || w.AtEnd?
    requires Valid(w) && Valid(Before(w).0)
    ensures Follows(r, e, w)
  {
    match w
    case InValue(h, key, value) => FollowsValue(r, e, h, key, value);
    case AfterValue(h) => FollowsAfterValue(r, e, h);
    case AfterColon(_, _) | AfterSpace(_, _) | AtEnd(_, _) => FollowsKey(r, e, w);
  }

  lemma BeforeStateOfKey(r: Request, e: int, h: Head, key: string)
    requires Valid(InKey(h, key)) && Valid(Before(InKey(h, key)).0)
    ensures Follows(r, e, InKey(h, key))
  {
    if key != "" {
      FollowsKey(r, e, InKey(h, key));
    } else if h.headers == [] {
      FollowsFirstKey(r, e, h);
    } else {
      FollowsNextKey(r, e, h);
    }
  }

  /** The parser follows the grammar. */
  lemma BeforeState(r: Request, e: int, w: Partial)
    requires Valid(w) && w != InMethod("") && r.body == ""
    ensures Valid(Before(w).0) && Follows(r, e, w)
  {
    BeforeIsValid(w);
    if InLine(w) {
      BeforeStateOfLine(r, e, w);
    } else if w.InKey? || w.InBody? {
      BeforeStateOfKeyOrBody(r, e, w);
    } else {
      BeforeStateOfHeader(r, e, w);
    }
  }

  lemma BeforeStateOfKeyOrBody(r: Request, e: int, w: Partial)
    requires (w.InKey? || w.InBody?) && Valid(w) && Valid(Before(w).0) && r.body == ""
    ensures Follows(r, e, w)
  {
    match w
    case InKey(h, key) => BeforeStateOfKey(r, e, h, key);
    case InBody(h, ending, body) => FollowsBody(r, e, h, ending, body);
  }

  predicate InLine(w: Partial) {
    w.InMethod? || w.AfterMethod? || w.InPath? || w.AfterPath? || w.InVersion? || w.AfterVersion?
  }

  lemma BeforeStateOfLine(r: Request, e: int, w: Partial)
    requires InLine(w) && Valid(w) && w != InMethod("") && Valid(Before(w).0)
    ensures Follows(r, e, w)
  {
    if w.InVersion? || w.AfterVersion? { FollowsVersion(r, e, w); } else { FollowsLine(r, e, w); }
  }

  /** One character more; meaningful when the parser makes progress on it. */
  function After(w: Partial, ch: char): Partial {
    match w
    case InMethod(word) => if ch == ' ' then AfterMethod(MethodFromString(word)) else InMethod(word + [ch])
    case AfterMethod(verb) => InPath(verb, [ch])
    case InPath(verb, path) => if ch == ' ' then AfterPath(verb, path) else InPath(verb, path + [ch])
    case AfterPath(verb, path) => InVersion(verb, path, 1)
    case InVersion(verb, path, n) => if n == 8 then AfterVersion(verb, path) else InVersion(verb, path, n + 1)
    case AfterVersion(verb, path) => InKey(Head(verb, path, []), "")
    case InKey(h, key) =>
      if ch == '\r' then AtEnd(h, key) else if ch == ':' then AfterColon(h, key) else InKey(h, key + [ch])
    case AfterColon(h, key) => AfterSpace(h, key)
    case AfterSpace(h, key) => InValue(h, key, [ch])
    case InValue(h, key, value) =>
      if ch == '\r' then AfterValue(h.(headers := h.headers + [Header(key, value)]))
      else InValue(h, key, value + [ch])
    case AfterValue(h) => InKey(h, "")
    case AtEnd(h, ending) => InBody(h, ending, "")
    case InBody(h, ending, body) => InBody(h, ending, body + [ch])
  }

  ghost predicate Extends(w: Partial, ch: char, w': Partial) {
    Valid(w') && w' != InMethod("") && Before(w') == (w, ch)
  }

  /** Which characters may follow; `length` is the Content-Length read so far. */
  predicate MayFollow(w: Partial, ch: char, length: int) {
    match w
    case InMethod(word) => IsAlpha(ch) || (word != "" && ch == ' ' && MethodFromString(word) != INVALID)
    case AfterMethod(_) => ch == '/'
    case InPath(_, _) => ch == ' ' || IsPathChar(ch)
    case AfterPath(_, _) => ch == 'H'
    case InVersion(_, _, n) => 1 <= n <= 8 && ch == if n == 8 then '\r' else VERSION_TEXT[n]
    case AfterVersion(_, _) => ch == '\n'
    case InKey(_, _) => ch == '\r' || ch == ':' || IsHeaderKeyChar(ch)
    case AfterColon(_, _) => ch == ' '
    case AfterSpace(_, _) => IsHeaderValueChar(ch)
    case InValue(_, key, value) =>
      IsHeaderValueChar(ch) || (ch == '\r' && (key == "Content-Length" ==> Stoi(value).Some?))
    case AfterValue(_) => ch == '\n'
    case AtEnd(_, _) => ch == '\n' && length != 0
    case InBody(_, _, body) => |body| + 1 < ToSize(length)
  }

  lemma ValueProgress(p: Parser, ch: char)
    requires p.handler == HeaderValue && Consume(p, ch).1.Progress?
    ensures IsHeaderValueChar(ch) || (ch == '\r' && (p.key == "Content-Length" ==> Stoi(p.token).Some?))
  {
    assert ConsumeHeaderValue(p, ch).1.Progress?;
  }

  /** The parser makes progress only on characters that may follow. */
  lemma ProgressMayFollow(q: Request, e: int, w: Partial, ch: char)
    requires Consume(StateOf(q, e, w), ch).1.Progress?
    requires (w.InVersion? ==> 1 <= w.n <= 8) && (w.InBody? ==> q.body == w.body)
    ensures MayFollow(w, ch, q.contentLength)
  {
    var p := StateOf(q, e, w);
    match w
    case InMethod(_) =>
    case AfterMethod(_) =>
    case InPath(_, _) =>
    case AfterPath(_, _) =>
    case InVersion(_, _, _) => assert ConsumeVersion(p, ch).1.Progress?;
    case AfterVersion(_, _) =>
    case InKey(_, _) => assert ConsumeHeaderKey(p, ch).1.Progress?;
    case AfterColon(_, _) =>
    case AfterSpace(_, _) =>
    case InValue(_, _, _) => ValueProgress(p, ch);
    case AfterValue(_) =>
    case AtEnd(_, _) => assert ConsumeEndLine(p, ch).1.Progress?;
    case InBody(_, _, _) => assert ConsumeBody(p, ch).1.Progress?;
  }

  lemma AfterMethodChar(word: string, ch: char)
    requires Valid(InMethod(word)) && IsAlpha(ch)
    ensures Extends(InMethod(word), ch, InMethod(word + [ch]))
  {
    var longer := word + [ch];
    assert longer[..|longer| - 1] == word && longer[|longer| - 1] == ch;
  }

  lemma AfterMethodEnd(word: string)
    requires Valid(InMethod(word)) && MethodFromString(word) != INVALID
    ensures Extends(InMethod(word), ' ', AfterMethod(MethodFromString(word)))
  {
    MethodRoundTrip(GET, word);
  }

  lemma AfterValueEnd(h: Head, key: string, value: string)
    requires Valid(InValue(h, key, value)) && (key == "Content-Length" ==> Stoi(value).Some?)
    ensures Extends(InValue(h, key, value), '\r', After(InValue(h, key, value), '\r'))
  {
    var last := Header(key, value);
    var h' := h.(headers := h.headers + [last]);
    assert h'.headers[..|h'.headers| - 1] == h.headers;
    assert HeaderOk(last);
  }

  lemma AfterKeyChar(h: Head, key: string, ch: char)
    requires Valid(InKey(h, key)) && IsHeaderKeyChar(ch)
    ensures Extends(InKey(h, key), ch, InKey(h, key + [ch]))
  {
    var longer := key + [ch];
    assert longer[..|longer| - 1] == key && longer[|longer| - 1] == ch;
  }

  lemma AfterValueChar(h: Head, key: string, value: string, ch: char)
    requires HeadOk(h) && KeyOk(key) && IsHeaderValueChar(ch) && (value == "" || ValueOk(value))
    ensures var w := if value == "" then AfterSpace(h, key) else InValue(h, key, value);
            Extends(w, ch, InValue(h, key, value + [ch]))
  {
    var longer := value + [ch];
    assert longer[..|longer| - 1] == value && longer[|longer| - 1] == ch;
  }

  lemma AfterHeaderChar(w: Partial, ch: char, length: int)
    requires w.InKey? || w.AfterColon? || w.AfterSpace? || w.InValue? || w.AfterValue?
    requires Valid(w) && MayFollow(w, ch, length)
    ensures Extends(w, ch, After(w, ch))
  {
    match w
    case InKey(h, key) => if ch != '\r' && ch != ':' { AfterKeyChar(h, key, ch); }
    case AfterColon(h, key) =>
    case AfterSpace(h, key) =>
      AfterValueChar(h, key, "", ch);
      assert "" + [ch] == [ch];
    case InValue(h, key, value) =>
      if ch == '\r' { AfterValueEnd(h, key, value); } else { AfterValueChar(h, key, value, ch); }
    case AfterValue(h) =>
  }

  lemma AfterBodyChar(h: Head, ending: string, body: string, ch: char)
    requires Valid(AtEnd(h, ending)) && ContentLength(h.headers) != 0
    ensures Extends(AtEnd(h, ending), '\n', InBody(h, ending, ""))
    ensures |body| + 1 < ToSize(ContentLength(h.headers)) ==>
              Extends(InBody(h, ending, body), ch, InBody(h, ending, body + [ch]))
  {
    var longer := body + [ch];
    assert longer[..|longer| - 1] == body && longer[|longer| - 1] == ch;
  }

  lemma AfterPathChar(verb: HttpMethod, path: string, ch: char)
    requires LineOk(verb, path) && IsPathChar(ch)
    ensures Extends(InPath(verb, path), ch, InPath(verb, path + [ch]))
  {
    var longer := path + [ch];
    assert longer[..|longer| - 1] == path && longer[|longer| - 1] == ch;
  }

  lemma BeforeVersionChar(verb: HttpMethod, path: string, n: nat)
    requires LineOk(verb, path) && 1 <= n < 8
    ensures Before(InVersion(verb, path, n + 1)) == (InVersion(verb, path, n), VERSION_TEXT[n])
  {
    var w := InVersion(verb, path, n + 1);
    assert Valid(w) && w.n - 1 == n;
  }

  lemma AfterVersionChar(verb: HttpMethod, path: string, n: nat)
    requires LineOk(verb, path) && 1 <= n < 8
    ensures Extends(InVersion(verb, path, n), VERSION_TEXT[n], InVersion(verb, path, n + 1))
  {
    BeforeVersionChar(verb, path, n);
  }

  lemma VersionBegins(verb: HttpMethod, path: string)
    requires LineOk(verb, path)
    ensures Extends(AfterPath(verb, path), 'H', InVersion(verb, path, 1))
  {
  }

  lemma VersionEnds(verb: HttpMethod, path: string)
    requires LineOk(verb, path)
    ensures Extends(InVersion(verb, path, 8), '\r', AfterVersion(verb, path))
  {
  }

  lemma KeyBegins(verb: HttpMethod, path: string)
    requires LineOk(verb, path)
    ensures Extends(AfterVersion(verb, path), '\n', InKey(Head(verb, path, []), ""))
  {
  }

  lemma PathBegins(verb: HttpMethod)
    requires verb != INVALID
    ensures Extends(AfterMethod(verb), '/', InPath(verb, "/"))
  {
  }

  lemma AfterLineChar(w: Partial, ch: char)
    requires w.AfterMethod? || w.InPath? || w.AfterPath? || w.InVersion? || w.AfterVersion?
    requires Valid(w) && MayFollow(w, ch, 0)
    ensures Extends(w, ch, After(w, ch))
  {
    match w
    case AfterMethod(verb) => PathBegins(verb);
    case InPath(verb, path) => if ch != ' ' { AfterPathChar(verb, path, ch); }
    case AfterPath(verb, path) => VersionBegins(verb, path);
    case InVersion(verb, path, n) => if n == 8 { VersionEnds(verb, path); } else { AfterVersionChar(verb, path, n); }
    case AfterVersion(verb, path) => KeyBegins(verb, path);
  }

  /** A character that may follow leads to a longer beginning of a message. */
  lemma FollowingExtends(w: Partial, ch: char, length: int)
    requires Valid(w) && MayFollow(w, ch, length)
    requires w.AtEnd? || w.InBody? ==> length == ContentLength(w.head.headers)
    ensures Extends(w, ch, After(w, ch))
  {
    match w
    case InMethod(word) => if ch == ' ' { AfterMethodEnd(word); } else { AfterMethodChar(word, ch); }
    case AtEnd(h, ending) => AfterBodyChar(h, ending, "", ch);
    case InBody(h, ending, body) => AfterBodyChar(h, ending, body, ch);
    case InKey(_, _) | AfterColon(_, _) | AfterSpace(_, _) | InValue(_, _, _) | AfterValue(_) =>
      AfterHeaderChar(w, ch, length);
    case _ => AfterLineChar(w, ch);
  }

  /** Whenever the parser makes progress, the text stays the beginning of a message. */
  lemma AfterIsNext(r: Request, e: int, w: Partial, ch: char)
    requires Valid(w) && Consume(StateAt(r, e, w), ch).1.Progress? && r.body == ""
    ensures Extends(w, ch, After(w, ch))
  {
    var q := RequestAt(r, w);
    if w.AtEnd? || w.InBody? { HeadLength(r, w.head); }
    ProgressMayFollow(q, e, w, ch);
    FollowingExtends(w, ch, q.contentLength);
  }

  // ---------------------------------------------------------------------
  // The language
  // ---------------------------------------------------------------------

  lemma {:induction false} ReadsPartial(r: Request, e: int, w: Partial)
    requires Valid(w) && r.body == ""
    ensures FeedAll(NewParser(r, e), Text(w)) == (StateAt(r, e, w), Progress)
    decreases |Text(w)|
  {
    if w != InMethod("") {
      BeforeText(w);
      BeforeState(r, e, w);
      ReadsPartial(r, e, Before(w).0);
      var s := Text(w);
      assert s[..|s| - 1] == Text(Before(w).0) && s[|s| - 1] == Before(w).1;
    }
  }

  lemma StartState(r: Request, e: int)
    ensures StateAt(r, e, InMethod("")) == NewParser(r, e) && Text(InMethod("")) == ""
  {
  }

  lemma ExtendStep(r: Request, e: int, w: Partial, ch: char)
    requires Valid(w) && Consume(StateAt(r, e, w), ch).1.Progress? && r.body == ""
    ensures Valid(After(w, ch)) && Text(After(w, ch)) == Text(w) + [ch]
    ensures Consume(StateAt(r, e, w), ch) == (StateAt(r, e, After(w, ch)), Progress)
  {
    AfterIsNext(r, e, w, ch);
    BeforeText(After(w, ch));
    BeforeState(r, e, After(w, ch));
  }

  lemma {:induction false} ProgressIsPartial(r: Request, e: int, s: string) returns (w: Partial)
    requires FeedAll(NewParser(r, e), s).1.Progress? && r.body == ""
    ensures Valid(w) && Text(w) == s && StateAt(r, e, w) == FeedAll(NewParser(r, e), s).0
  {
    if s == "" {
      w := InMethod("");
      StartState(r, e);
    } else {
      var prefix, ch := s[..|s| - 1], s[|s| - 1];
      var w0 := ProgressIsPartial(r, e, prefix);
      ExtendStep(r, e, w0, ch);
      w := After(w0, ch);
      Snoc("", s);
    }
  }

  /** The parser answers 0 to every character of `s` exactly when `s` is the beginning of a
      message as far as it goes. */
  lemma ProgressLanguage(r: Request, e: int, s: string)
    requires r.body == ""
    ensures FeedAll(NewParser(r, e), s).1.Progress? <==> exists w :: Valid(w) && Text(w) == s
  {
    if FeedAll(NewParser(r, e), s).1.Progress? {
      var w := ProgressIsPartial(r, e, s);
    }
    if w :| Valid(w) && Text(w) == s {
      ReadsPartial(r, e, w);
    }
  }

  /** The place just before the last character of a message, and that character. */
  function LastStep(m: Message): (Partial, char) {
    var h := Head(m.verb, m.path, m.headers);
    if m.body == "" then (AtEnd(h, m.ending), '\n')
    else (InBody(h, m.ending, m.body[..|m.body| - 1]), m.body[|m.body| - 1])
  }

  /** The message that `ch` completes. */
  function Complete(w: Partial, ch: char): Message
    requires w.AtEnd? || w.InBody?
  {
    Message(w.head.verb, w.head.path, w.head.headers, w.ending, if w.AtEnd? then "" else w.body + [ch])
  }

  lemma LastStepText(m: Message)
    requires Valid(LastStep(m).0)
    ensures Render(m) == Text(LastStep(m).0) + [LastStep(m).1]
  {
    var before := HeadText(Head(m.verb, m.path, m.headers)) + m.ending;
    CrLf(before);
    Empty(before + "\r\n");
    if m.body != "" { Snoc(before + "\r\n", m.body); }
  }

  lemma AcceptShape(q: Request, e: int, w: Partial, ch: char)
    ensures Consume(StateOf(q, e, w), ch).1.Accepted? <==>
              || (w.AtEnd? && ch == '\n' && q.contentLength == 0)
              || (w.InBody? && |q.body| + 1 == ToSize(q.contentLength))
  {
    var p := StateOf(q, e, w);
    match w
    case InValue(_, _, _) => assert !ConsumeHeaderValue(p, ch).1.Accepted?;
    case AtEnd(_, _) => assert Consume(p, ch) == ConsumeEndLine(p, ch);
    case InBody(_, _, _) => assert Consume(p, ch) == ConsumeBody(p, ch);
    case _ =>
  }

  lemma LastStepValid(m: Message)
    requires WellFormed(m)
    ensures Valid(LastStep(m).0)
    ensures m.body == "" ==> ContentLength(m.headers) == 0
  {
  }

  function BodyBefore(m: Message): string {
    if m.body == "" then "" else m.body[..|m.body| - 1]
  }

  lemma AcceptsLast(q: Request, e: int, m: Message)
    requires |m.body| == ToSize(q.contentLength) && (m.body == "" ==> q.contentLength == 0)
    ensures var (p, o) := Consume(StateOf(q.(body := BodyBefore(m)), e, LastStep(m).0), LastStep(m).1);
            o.Accepted? && p.request == q.(body := m.body)
  {
    var h := Head(m.verb, m.path, m.headers);
    if m.body == "" {
      AcceptsEmpty(q.(body := ""), e, h, m.ending);
    } else {
      AcceptsBody(q, e, h, m.ending, m.body);
    }
  }

  /** The last character of a well-formed message is accepted, with its meaning. */
  lemma LastStepAccepts(r: Request, e: int, m: Message)
    requires WellFormed(m) && r.body == "" && Valid(LastStep(m).0)
    ensures var (p, o) := Consume(StateAt(r, e, LastStep(m).0), LastStep(m).1);
            o.Accepted? && p.request == Meaning(r, m)
  {
    LastStepValid(m);
    var q := HeadRequest(r, Head(m.verb, m.path, m.headers));
    HeadLength(r, Head(m.verb, m.path, m.headers));
    assert RequestAt(r, LastStep(m).0) == q.(body := BodyBefore(m));
    AcceptsLast(q, e, m);
  }

  lemma AcceptsEmpty(q: Request, e: int, h: Head, ending: string)
    requires q.contentLength == 0 && q.body == ""
    ensures var (p, o) := Consume(StateOf(q, e, AtEnd(h, ending)), '\n');
            o.Accepted? && p.request == q.(body := "")
  {
  }

  lemma AcceptsBody(q: Request, e: int, h: Head, ending: string, body: string)
    requires body != "" && |body| == ToSize(q.contentLength)
    ensures var q' := q.(body := body[..|body| - 1]);
            var (p, o) := Consume(StateOf(q', e, InBody(h, ending, body[..|body| - 1])), body[|body| - 1]);
            o.Accepted? && p.request == q.(body := body)
  {
    Snoc("", body);
  }

  /** The character on which the parser accepts completes a well-formed message. */
  lemma AcceptCompletes(r: Request, e: int, w: Partial, ch: char)
    requires Valid(w) && r.body == "" && Consume(StateAt(r, e, w), ch).1.Accepted?
    ensures w.AtEnd? || w.InBody?
    ensures WellFormed(Complete(w, ch)) && LastStep(Complete(w, ch)) == (w, ch)
  {
    AcceptShape(RequestAt(r, w), e, w, ch);
    HeadLength(r, w.head);
    if w.InBody? { CompletesBody(w.head, w.ending, w.body, ch); }
  }

  lemma CompletesBody(h: Head, ending: string, body: string, ch: char)
    ensures LastStep(Complete(InBody(h, ending, body), ch)) == (InBody(h, ending, body), ch)
  {
    Snoc("", body + [ch]);
    assert (body + [ch])[..|body|] == body;
  }

  /** The language of the grammar. */
  ghost predicate IsMessage(s: string) {
    exists m :: WellFormed(m) && Render(m) == s
  }

  /** Exact language, and what acceptance stores: fed one character at a time, the parser
      answers 0, .., 0, 1 on `s` exactly when `s` is a well-formed message. */
  lemma {:induction false} ExactLanguage(r: Request, e: int, s: string)
    requires r.body == ""
    ensures AcceptsExactly(NewParser(r, e), s) <==> IsMessage(s)
  {
    if AcceptsExactly(NewParser(r, e), s) {
      var prefix, ch := s[..|s| - 1], s[|s| - 1];
      var w := ProgressIsPartial(r, e, prefix);
      AcceptCompletes(r, e, w, ch);
      var m := Complete(w, ch);
      LastStepText(m);
      Snoc("", s);
      assert WellFormed(m) && Render(m) == s;
    }
    if m :| WellFormed(m) && Render(m) == s {
      AcceptedMeaning(r, e, m);
    }
  }

  /** Reading a well-formed message yields the request it stands for. */
  lemma {:induction false} AcceptedMeaning(r: Request, e: int, m: Message)
    requires WellFormed(m) && r.body == ""
    ensures AcceptsExactly(NewParser(r, e), Render(m))
    ensures FeedAll(NewParser(r, e), Render(m)).0.request == Meaning(r, m)
  {
    LastStepValid(m);
    LastStepAccepts(r, e, m);
    LastStepText(m);
    var (w, ch) := LastStep(m);
    var s := Render(m);
    ReadsPartial(r, e, w);
    assert s[..|s| - 1] == Text(w) && s[|s| - 1] == ch;
  }

  // ---------------------------------------------------------------------
  // The exception of stoi
  // ---------------------------------------------------------------------

  /** At the end of a Content-Length without a number in range. */
  predicate BadLength(w: Partial) {
    w.InValue? && w.key == "Content-Length" && Stoi(w.value).None?
  }

  /** `Feed` returns 0 on every character of `s` but the last, on which it throws. */
  predicate ThrowsExactly(p: Parser, s: string) {
    s != "" && FeedAll(p, s[..|s| - 1]).1.Progress? && FeedAll(p, s).1.Threw?
  }

  lemma ThrowShape(q: Request, e: int, w: Partial, ch: char)
    ensures Consume(StateOf(q, e, w), ch).1.Threw? <==> BadLength(w) && ch == '\r'
  {
    var p := StateOf(q, e, w);
    match w
    case InMethod(_) => assert !ConsumeMethod(p, ch).1.Threw?;
    case InValue(_, _, _) => assert Consume(p, ch) == ConsumeHeaderValue(p, ch);
    case InBody(_, _, _) => assert Consume(p, ch) == ConsumeBody(p, ch);
    case _ =>
  }

  /** The parser throws exactly at the end of such a line, wherever in the headers it stands. */
  lemma ThrowLanguage(r: Request, e: int, s: string)
    requires r.body == ""
    ensures ThrowsExactly(NewParser(r, e), s) <==> exists w :: Valid(w) && BadLength(w) && Text(w) + "\r" == s
  {
    if ThrowsExactly(NewParser(r, e), s) {
      var w := ProgressIsPartial(r, e, s[..|s| - 1]);
      ThrowShape(RequestAt(r, w), e, w, s[|s| - 1]);
      Snoc("", s);
      assert Text(w) + "\r" == s;
    }
    if w :| Valid(w) && BadLength(w) && Text(w) + "\r" == s {
      BadLengthIsThrown(r, e, w);
    }
  }

  lemma BadLengthIsThrown(r: Request, e: int, w: Partial)
    requires r.body == "" && Valid(w) && BadLength(w)
    ensures ThrowsExactly(NewParser(r, e), Text(w) + "\r")
  {
    var s := Text(w) + "\r";
    ReadsPartial(r, e, w);
    ThrowShape(RequestAt(r, w), e, w, '\r');
    assert s[..|s| - 1] == Text(w) && s[|s| - 1] == '\r';
  }
}
